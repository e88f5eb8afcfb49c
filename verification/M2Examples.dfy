/**
  Whole programs, from their tokens to the numbers they return, for every argument: a while
  loop, a recursion, a for loop with a break, and a do loop.
 */
module M2Examples {
  import opened Options
  import opened M2Word
  import opened M2Source
  import opened M2Rules
  import opened M2Grammar
  import T = M2RoundTrip
  import F = M2StatementTrip
  import C = M2Codegen
  import Meaning = M2Meaning

  // ----- int sum(int n) { int s; s = 0; while (n) { s = s + n; n = n - 1; } return s; } -----

  const SUM_HEAD := [Name("int"), Name("sum"), Sym("("), Name("int"), Name("n"), Sym(")")]
  const SUM_START := [Name("int"), Name("s"), Sym(";"), Name("s"), Sym("="), Num(0), Sym(";")]
  const SUM_LOOP := [Name("while"), Sym("("), Name("n"), Sym(")"), Sym("{"),
    Name("s"), Sym("="), Name("s"), Sym("+"), Name("n"), Sym(";"),
    Name("n"), Sym("="), Name("n"), Sym("-"), Num(1), Sym(";"), Sym("}")]
  const SUM_END := [Name("return"), Name("s"), Sym(";")]
  const SUM: seq<Token> := SUM_HEAD + [Sym("{")] + SUM_START + SUM_LOOP + SUM_END + [Sym("}")]

  function Set(x: string, e: Expr): Stmt { ExprS(Assign(LVal(x), e)) }

  const ADD_N := Set("s", Bin(Add, Var("s"), Var("n")))
  const TAKE_ONE := Set("n", Bin(Sub, Var("n"), Const(1)))
  const SUM_WHILE := While(Var("n"), Block([ADD_N, TAKE_ONE]))
  const SUM_BODY := Block([Decl("s", None), Set("s", Const(0)), SUM_WHILE, Return(Some(Var("s")))])
  const SUM_SCOPE := Scope(map[], {"sum"}, {"sum"})

  lemma AssignSpelled(x: string, e: Expr)
    ensures T.Spell(Assign(LVal(x), e)) == [Name(x), Sym("=")] + T.Spell(e)
  {
    assert T.Spell(LVal(x)) == [Name(x)];
    assert T.Spell(Assign(LVal(x), e)) == [Name(x)] + [Sym("=")] + T.Spell(e);
  }

  lemma SetSpelled(x: string, e: Expr)
    ensures F.SpellStmt(Set(x, e)) == [Name(x), Sym("=")] + T.Spell(e) + [Sym(";")]
  {
    hide T.Spell, F.SpellAll;
    AssignSpelled(x, e);
  }

  lemma BinarySpelled(x: string, y: string, n: Word)
    ensures T.Spell(Bin(Add, Var(x), Var(y))) == [Name(x), Sym("+"), Name(y)]
    ensures T.Spell(Bin(Sub, Var(x), Const(n))) == [Name(x), Sym("-"), Num(n)]
  {
  }

  /** The statements of a block one by one. */
  lemma AllSpelled(s: Stmt, ss: seq<Stmt>)
    ensures F.SpellAll([s] + ss) == F.SpellStmt(s) + F.SpellAll(ss)
    ensures F.SpellAll([]) == [Sym("}")]
  {
    assert ([s] + ss)[1..] == ss;
  }

  lemma SumLoopSpelled()
    ensures F.SpellStmt(SUM_WHILE) == SUM_LOOP
  {
    hide F.SpellStmt, F.SpellAll, T.Spell;
    BinarySpelled("s", "n", 1);
    BinarySpelled("n", "n", 1);
    VariableSpelled("n", 0);
    SetSpelled("s", Bin(Add, Var("s"), Var("n")));
    SetSpelled("n", Bin(Sub, Var("n"), Const(1)));
    AllSpelled(TAKE_ONE, []);
    AllSpelled(ADD_N, [TAKE_ONE]);
    assert [TAKE_ONE] + [] == [TAKE_ONE] && [ADD_N] + [TAKE_ONE] == [ADD_N, TAKE_ONE];
    WhileSpelled(Var("n"), [ADD_N, TAKE_ONE]);
  }

  lemma VariableSpelled(x: string, n: Word)
    ensures T.Spell(Var(x)) == [Name(x)] && T.Spell(Const(n)) == [Num(n)]
  {
  }

  lemma SumSpelled()
    ensures F.SpellFile([F.Function("sum", ["n"], SUM_BODY)]) == SUM
  {
    hide F.SpellStmt, F.SpellAll, F.SpellFile, F.SpellParams, T.Spell;
    VariableSpelled("s", 0);
    SetSpelled("s", Const(0));
    SumLoopSpelled();
    var first, second, last := Decl("s", None), Set("s", Const(0)), Return(Some(Var("s")));
    AllSpelled(last, []);
    AllSpelled(SUM_WHILE, [last]);
    AllSpelled(second, [SUM_WHILE, last]);
    AllSpelled(first, [second, SUM_WHILE, last]);
    SimpleSpelled("s", Var("s"));
    assert [last] + [] == [last] && [SUM_WHILE] + [last] == [SUM_WHILE, last];
    assert [second] + [SUM_WHILE, last] == [second, SUM_WHILE, last];
    assert [first] + [second, SUM_WHILE, last] == [first, second, SUM_WHILE, last];
    ParamsSpelled("n", "n");
    FunctionSpelled("sum", ["n"], [first, second, SUM_WHILE, last]);
  }

  lemma WhileSpelled(c: Expr, b: seq<Stmt>)
    ensures F.SpellStmt(While(c, Block(b))) == [Name("while"), Sym("(")] + T.Spell(c) + [Sym(")"), Sym("{")] + F.SpellAll(b)
  {
    hide F.SpellAll, T.Spell;
    assert F.SpellStmt(Block(b)) == [Sym("{")] + F.SpellAll(b);
  }

  lemma SimpleSpelled(x: string, e: Expr)
    ensures F.SpellStmt(Return(Some(e))) == [Name("return")] + T.Spell(e) + [Sym(";")]
    ensures F.SpellStmt(Decl(x, None)) == [Name("int"), Name(x), Sym(";")]
  {
    hide T.Spell;
  }

  lemma FunctionSpelled(f: string, ps: seq<string>, b: seq<Stmt>)
    ensures F.SpellFile([F.Function(f, ps, Block(b))])
      == [Name("int"), Name(f), Sym("(")] + F.SpellParams(ps) + [Sym("{")] + F.SpellAll(b)
  {
    hide F.SpellAll, F.SpellParams;
    assert F.SpellStmt(Block(b)) == [Sym("{")] + F.SpellAll(b);
    var d := F.Function(f, ps, Block(b));
    assert [d][1..] == [] && F.SpellFile([]) == [];
    assert F.SpellFile([d]) == F.SpellItem(d) + [];
  }

  lemma ParamsSpelled(x: string, y: string)
    ensures F.SpellParams([x]) == [Name("int"), Name(x), Sym(")")]
    ensures F.SpellParams([x, y]) == [Name("int"), Name(x), Sym(","), Name("int"), Name(y), Sym(")")]
  {
    assert [x, y][1..] == [y] && [x][1..] == [] && [y][1..] == [];
    assert F.SpellParams([]) == [Sym(")")];
    assert F.SpellParams([y]) == [Name("int"), Name(y), Sym(")")];
  }

  lemma AllDerived(env: C.Env, s: Stmt, ss: seq<Stmt>, inLoop: bool)
    requires F.DerivedStmt(env, s, inLoop) && F.DerivedAll(C.After(env, s), ss, inLoop)
    ensures F.DerivedAll(env, [s] + ss, inLoop)
  {
    hide F.DerivedStmt;
    assert ([s] + ss)[1..] == ss;
  }

  lemma SetDerived(env: C.Env, x: string, e: Expr, inLoop: bool)
    requires x !in KEYWORDS && Usable(env, x) && T.Derived(env, e, 4)
    ensures F.DerivedStmt(env, Set(x, e), inLoop) && C.After(env, Set(x, e)) == env
  {
    hide C.Locate, T.Spell;
    AssignSpelled(x, e);
  }

  lemma SumDerived()
    ensures F.DerivedFile(NO_NAMES, [F.Function("sum", ["n"], SUM_BODY)])
  {
    hide T.Derived, F.DerivedStmt, F.DerivedAll, Usable;
    var env0, env := C.Env("sum", SUM_SCOPE, ["n"], []), C.Env("sum", SUM_SCOPE, ["n"], ["s"]);
    var first, second, last := Decl("s", None), Set("s", Const(0)), Return(Some(Var("s")));
    SumUsable(env);
    SumExpressions(env);
    NoKeyword("s");
    NoKeyword("n");
    SumLoopDerived(env);
    SetDerived(env, "s", Const(0), false);
    DeclaredThenReturned(env0, env, "s");
    assert [last] + [] == [last] && [SUM_WHILE] + [last] == [SUM_WHILE, last];
    assert [second] + [SUM_WHILE, last] == [second, SUM_WHILE, last];
    assert [first] + [second, SUM_WHILE, last] == [first, second, SUM_WHILE, last];
    AllDerived(env, last, [], false);
    AllDerived(env, SUM_WHILE, [last], false);
    AllDerived(env, second, [SUM_WHILE, last], false);
    AllDerived(env0, first, [second, SUM_WHILE, last], false);
    FunctionDerived("sum", ["n"], [first, second, SUM_WHILE, last]);
  }

  lemma SumLoopDerived(env: C.Env)
    requires env == C.Env("sum", SUM_SCOPE, ["n"], ["s"])
    ensures F.DerivedStmt(env, SUM_WHILE, false)
  {
    hide T.Derived, Usable, F.DerivedAll;
    SumUsable(env);
    SumExpressions(env);
    NoKeyword("s");
    NoKeyword("n");
    PairDerived(env, ADD_N, TAKE_ONE);
  }

  lemma FunctionDerived(f: string, ps: seq<string>, b: seq<Stmt>)
    requires F.NoKeywords(ps) && F.DerivedAll(C.Env(f, Scope(map[], {f}, {f}), ps, []), b, false)
    ensures F.DerivedFile(NO_NAMES, [F.Function(f, ps, Block(b))])
  {
    hide F.DerivedAll, F.NoKeywords;
    var d := F.Function(f, ps, Block(b));
    assert F.Known(NO_NAMES, d) == Scope(map[], {f}, {f});
    assert [d][1..] == [];
  }

  lemma NoKeyword(x: string)
    requires x == "s" || x == "n"
    ensures x !in KEYWORDS
  {
  }

  lemma SumUsable(env: C.Env)
    requires env == C.Env("sum", SUM_SCOPE, ["n"], ["s"])
    ensures Usable(env, "s") && Usable(env, "n")
  {
    assert C.Locate(env, "s") == Local(0) && C.Locate(env, "n") == Arg(0);
  }

  lemma SumExpressions(env: C.Env)
    requires Usable(env, "s") && Usable(env, "n")
    ensures forall rank: nat :: T.Derived(env, Var("s"), rank) && T.Derived(env, Var("n"), rank)
    ensures T.Derived(env, ADD_N.e, 4) && T.Derived(env, TAKE_ONE.e, 4) && T.Derived(env, Const(0), 4)
  {
    hide C.Locate;
    assert T.Derived(env, Var("s"), 1) && T.Derived(env, Var("n"), 1) && T.Derived(env, Var("n"), 0) && T.Derived(env, Const(1), 0);
    assert T.Derived(env, Bin(Add, Var("s"), Var("n")), 4) && T.Derived(env, Bin(Sub, Var("n"), Const(1)), 4);
  }

  function SumFrame(n: Word, s: Num): Frame { Frame(SUM_SCOPE, [Cell("n", Some(n))], [Cell("s", s)], None) }

  lemma SumVariables(n: Word, s: Num, g: Globals, v: Word)
    ensures Read(SumFrame(n, s), g, "n") == Some(Some(n)) && Read(SumFrame(n, s), g, "s") == Some(s)
    ensures Write(SumFrame(n, s), g, "n", Some(v)) == Some((SumFrame(v, s), g))
    ensures Write(SumFrame(n, s), g, "s", Some(v)) == Some((SumFrame(n, Some(v)), g))
  {
    var fr := SumFrame(n, s);
    assert Names(fr.args) == ["n"] && LocalNames(fr) == ["s"];
    assert PlaceOf(fr, "n") == Arg(0) && PlaceOf(fr, "s") == Local(0);
    assert fr.args[0 := Cell("n", Some(v))] == [Cell("n", Some(v))] && fr.locals[0 := Cell("s", Some(v))] == [Cell("s", Some(v))];
  }

  lemma SumRound(p: Program, n: Word, s: Word, g: Globals)
    requires n > 0
    ensures Runs(p, SumFrame(n, Some(s)), g, Block([ADD_N, TAKE_ONE]), Done(Normal, SumFrame(n - 1, Some(Wrap(s + n))), g, None))
  {
    hide Read, Write, Yields, Runs, RunsAll, Wrap;
    var fr := SumFrame(n, Some(s));
    var t := Wrap(s + n);
    var fr1, fr2 := SumFrame(n, Some(t)), SumFrame(n - 1, Some(t));
    SumVariables(n, Some(s), g, t);
    VariableRule(p, fr, g, "s", Some(s));
    VariableRule(p, fr, g, "n", Some(n));
    BinaryRule(p, fr, g, Add, Var("s"), Var("n"), s, fr, g, n, fr, g, t);
    AssignRule(p, fr, g, "s", Bin(Add, Var("s"), Var("n")), Some(t), fr, g, fr1, g);
    ExpressionRule(p, fr, g, ADD_N.e, Some(t), fr1, g);
    SumVariables(n, Some(t), g, n - 1);
    VariableRule(p, fr1, g, "n", Some(n));
    ConstantRule(p, fr1, g, 1);
    WrapIdentity(n - 1);
    BinaryRule(p, fr1, g, Sub, Var("n"), Const(1), n, fr1, g, 1, fr1, g, n - 1);
    AssignRule(p, fr1, g, "n", Bin(Sub, Var("n"), Const(1)), Some(n - 1), fr1, g, fr2, g);
    ExpressionRule(p, fr1, g, TAKE_ONE.e, Some(n - 1), fr2, g);
    NothingRule(p, fr2, g);
    SequenceRule(p, fr1, g, TAKE_ONE, [], Done(Normal, fr2, g, Some(n - 1)), Done(Normal, fr2, g, None));
    SequenceRule(p, fr, g, ADD_N, [TAKE_ONE] + [], Done(Normal, fr1, g, Some(t)), Done(Normal, fr2, g, None));
    assert [ADD_N] + ([TAKE_ONE] + []) == [ADD_N, TAKE_ONE];
    BlockRule(p, fr, g, [ADD_N, TAKE_ONE], Done(Normal, fr2, g, None));
    assert fr2.(locals := fr2.locals[..1]) == fr2;
  }

  function Triangle(n: nat): nat { n * (n + 1) / 2 }

  lemma TriangleStep(n: nat, s: int)
    requires n > 0
    ensures Wrap(Wrap(s + n) + Triangle(n - 1)) == Wrap(s + Triangle(n))
  {
    hide Triangle, Wrap;
    TriangleGrows(n);
    WrapOnce(s + n, Triangle(n - 1));
  }

  lemma TriangleGrows(n: nat)
    requires n > 0
    ensures Triangle(n) == Triangle(n - 1) + n
  {
    assert n * (n + 1) == (n - 1) * n + 2 * n;
    HalfOfSum((n - 1) * n, n);
  }

  lemma HalfOfSum(x: int, n: int)
    ensures (x + 2 * n) / 2 == x / 2 + n
  {
  }

  lemma WrapOnce(x: int, y: int)
    ensures Wrap(Wrap(x) + y) == Wrap(x + y)
  {
  }

  lemma {:induction false} SumLoop(p: Program, n: Word, s: Word, g: Globals)
    requires n >= 0
    ensures Runs(p, SumFrame(n, Some(s)), g, SUM_WHILE, Done(Normal, SumFrame(0, Some(Wrap(s + Triangle(n)))), g, None))
    decreases n
  {
    hide Read, Write, Yields, Runs, RunsAll, Wrap, Triangle;
    var fr := SumFrame(n, Some(s));
    SumVariables(n, Some(s), g, n);
    VariableRule(p, fr, g, "n", Some(n));
    var o := Done(Normal, SumFrame(0, Some(Wrap(s + Triangle(n)))), g, None);
    if n == 0 {
      assert Triangle(0) == 0 by { TriangleZero(); }
      WrapIdentity(s);
      WhileRule(p, fr, g, SUM_WHILE, n, fr, g, o, o);
    } else {
      var t := Wrap(s + n);
      SumRound(p, n, s, g);
      SumLoop(p, n - 1, t, g);
      TriangleStep(n, s);
      WhileRule(p, fr, g, SUM_WHILE, n, fr, g, Done(Normal, SumFrame(n - 1, Some(t)), g, None), o);
    }
  }

  lemma TriangleZero()
    ensures Triangle(0) == 0
  {
  }

  lemma SumBody(p: Program, n: Word, g: Globals)
    requires n >= 0
    ensures var fr := Frame(SUM_SCOPE, [Cell("n", Some(n))], [], None);
      Runs(p, fr, g, SUM_BODY, Done(Returned, fr.(args := [Cell("n", Some(0))]), g, Some(Wrap(Triangle(n)))))
  {
    hide Read, Write, Yields, Runs, RunsAll, Wrap, Triangle;
    var fr := Frame(SUM_SCOPE, [Cell("n", Some(n))], [], None);
    var v := Wrap(Triangle(n));
    var fr1, fr2, fr3 := SumFrame(n, None), SumFrame(n, Some(0)), SumFrame(0, Some(v));
    var first, second, last := Decl("s", None), Set("s", Const(0)), Return(Some(Var("s")));
    var o := Done(Returned, fr3, g, Some(v));
    DeclarationRule(p, fr, g, "s");
    assert fr.(locals := fr.locals + [Cell("s", None)]) == fr1;
    SumVariables(n, None, g, 0);
    ConstantRule(p, fr1, g, 0);
    AssignRule(p, fr1, g, "s", Const(0), Some(0), fr1, g, fr2, g);
    ExpressionRule(p, fr1, g, second.e, Some(0), fr2, g);
    SumLoop(p, n, 0, g);
    SumVariables(0, Some(v), g, 0);
    VariableRule(p, fr3, g, "s", Some(v));
    ReturnRule(p, fr3, g, Var("s"), Some(v), fr3, g);
    SequenceRule(p, fr3, g, last, [], o, o);
    SequenceRule(p, fr2, g, SUM_WHILE, [last] + [], Done(Normal, fr3, g, None), o);
    SequenceRule(p, fr1, g, second, [SUM_WHILE] + ([last] + []), Done(Normal, fr2, g, Some(0)), o);
    SequenceRule(p, fr, g, first, [second] + ([SUM_WHILE] + ([last] + [])), Done(Normal, fr1, g, None), o);
    assert [first] + ([second] + ([SUM_WHILE] + ([last] + []))) == [first, second, SUM_WHILE, last];
    BlockRule(p, fr, g, [first, second, SUM_WHILE, last], o);
    assert o.fr.(locals := o.fr.locals[..0]) == fr.(args := [Cell("n", Some(0))]);
  }

  /** The program text: for every n that is not negative, sum(n) is n (n + 1) / 2, modulo 2^32. */
  lemma SumProgram(n: Word, g: Globals)
    requires n >= 0
    ensures var r := Declarations(NO_NAMES, SUM, 0);
      r.Ok? && Returns(r.v, "sum", [Some(n)], g, Result(Some(Wrap(n * (n + 1) / 2)), g, [Cell("n", Some(0))]))
  {
    hide Declarations, F.DerivedFile, F.SpellFile, Runs, Returns, T.Stands;
    var d := F.Function("sum", ["n"], SUM_BODY);
    SumSpelled();
    SumDerived();
    ItselfStands(SUM);
    F.FileTrip(NO_NAMES, [d], SUM, 0);
    var p := [Fun("sum", ["n"], SUM_BODY, SUM_SCOPE)];
    OneFunction(d);
    var fr := Frame(SUM_SCOPE, [Cell("n", Some(n))], [], None);
    assert M2Source.Bind(["n"], [Some(n)]) == [Cell("n", Some(n))];
    SumBody(p, n, g);
    BodyRule(p, "sum", [Some(n)], g, p[0], Done(Returned, fr.(args := [Cell("n", Some(0))]), g, Some(Wrap(Triangle(n)))));
  }

  lemma ItselfStands(ts: seq<Token>)
    ensures T.Stands(ts, 0, ts)
  {
  }

  lemma OneFunction(d: F.Item)
    requires d.Function?
    ensures F.Functions(NO_NAMES, [d]) == [Fun(d.name, d.params, d.body, Scope(map[], {d.name}, {d.name}))]
    ensures FindFun(F.Functions(NO_NAMES, [d]), d.name) == Some(F.Functions(NO_NAMES, [d])[0])
  {
    assert [d][1..] == [];
    assert F.Known(NO_NAMES, d) == Scope(map[], {d.name}, {d.name});
  }

  // ----- int gcd(int a, int b) { if (b == 0) return a; else return gcd(b, a % b); } -----

  const GCD_TEST := [Name("if"), Sym("("), Name("b"), Sym("=="), Num(0), Sym(")")]
  const GCD_CALL := [Name("gcd"), Sym("("), Name("b"), Sym(","), Name("a"), Sym("%"), Name("b"), Sym(")")]
  const GCD: seq<Token> := [Name("int"), Name("gcd"), Sym("("), Name("int"), Name("a"), Sym(","), Name("int"), Name("b"), Sym(")"),
    Sym("{")] + GCD_TEST + [Name("return"), Name("a"), Sym(";"), Name("else"), Name("return")] + GCD_CALL + [Sym(";"), Sym("}")]

  const AGAIN := Call("gcd", [Var("b"), Bin(Mod, Var("a"), Var("b"))])
  const GCD_IF := If(Bin(Eq, Var("b"), Const(0)), Return(Some(Var("a"))), Some(Return(Some(AGAIN))))
  const GCD_SCOPE := Scope(map[], {"gcd"}, {"gcd"})
  const GCD_FUN := Fun("gcd", ["a", "b"], Block([GCD_IF]), GCD_SCOPE)

  lemma CallSpelled()
    ensures T.Spell(AGAIN) == GCD_CALL
  {
    var e := Bin(Mod, Var("a"), Var("b"));
    assert T.Spell(e) == [Name("a"), Sym("%"), Name("b")];
    assert [Var("b"), e][1..] == [e];
    assert T.SpellArgs([e]) == [Name("a"), Sym("%"), Name("b"), Sym(")")];
    assert T.SpellArgs([Var("b"), e]) == [Name("b"), Sym(","), Name("a"), Sym("%"), Name("b"), Sym(")")];
  }

  lemma GcdIfSpelled()
    ensures F.SpellStmt(GCD_IF) == GCD_TEST + [Name("return"), Name("a"), Sym(";"), Name("else"), Name("return")] + GCD_CALL + [Sym(";")]
  {
    hide T.Spell;
    CallSpelled();
    VariableSpelled("a", 0);
    TestSpelled();
    SimpleSpelled("a", Var("a"));
    SimpleSpelled("a", AGAIN);
    var no := Return(Some(AGAIN));
    hide F.SpellStmt;
    IfSpelled(Bin(Eq, Var("b"), Const(0)), Return(Some(Var("a"))), no);
  }

  lemma TestSpelled()
    ensures T.Spell(Bin(Eq, Var("b"), Const(0))) == [Name("b"), Sym("=="), Num(0)]
  {
  }

  lemma IfSpelled(c: Expr, t: Stmt, e: Stmt)
    ensures F.SpellStmt(If(c, t, Some(e)))
      == [Name("if"), Sym("(")] + T.Spell(c) + [Sym(")")] + F.SpellStmt(t) + [Name("else")] + F.SpellStmt(e)
  {
    hide T.Spell;
    assert F.SpellElse(Some(e)) == [Name("else")] + F.SpellStmt(e);
  }

  lemma GcdSpelled()
    ensures F.SpellFile([F.Function("gcd", ["a", "b"], Block([GCD_IF]))]) == GCD
  {
    hide F.SpellStmt, F.SpellAll, F.SpellFile, F.SpellParams, T.Spell;
    GcdIfSpelled();
    AllSpelled(GCD_IF, []);
    assert [GCD_IF] + [] == [GCD_IF];
    ParamsSpelled("a", "b");
    FunctionSpelled("gcd", ["a", "b"], [GCD_IF]);
  }

  lemma GcdDerived()
    ensures F.DerivedFile(NO_NAMES, [F.Function("gcd", ["a", "b"], Block([GCD_IF]))])
  {
    hide T.Derived, F.DerivedStmt, F.DerivedAll;
    var env := C.Env("gcd", GCD_SCOPE, ["a", "b"], []);
    GcdExpressions(env);
    GcdIfDerived(env);
    AllDerivedEmpty(env, false);
    AllDerived(env, GCD_IF, [], false);
    assert [GCD_IF] + [] == [GCD_IF];
    assert F.NoKeywords(["a", "b"]);
    FunctionDerived("gcd", ["a", "b"], [GCD_IF]);
  }

  lemma GcdIfDerived(env: C.Env)
    requires T.Derived(env, Var("a"), 4) && T.Derived(env, Bin(Eq, Var("b"), Const(0)), 4) && T.Derived(env, AGAIN, 4)
    ensures F.DerivedStmt(env, GCD_IF, false)
  {
    hide T.Derived;
  }

  lemma GcdExpressions(env: C.Env)
    requires env == C.Env("gcd", GCD_SCOPE, ["a", "b"], [])
    ensures T.Derived(env, Var("a"), 4) && T.Derived(env, Bin(Eq, Var("b"), Const(0)), 4) && T.Derived(env, AGAIN, 4)
  {
    assert ["a", "b"][..1] == ["a"];
    assert C.Locate(env, "a") == Arg(0) && C.Locate(env, "b") == Arg(1) && C.Locate(env, "gcd") == FunctionName;
    hide C.Locate;
    assert T.Derived(env, Bin(Mod, Var("a"), Var("b")), 4) && T.Derived(env, Var("b"), 4);
  }

  function GcdFrame(a: Word, b: Word): Frame { Frame(GCD_SCOPE, [Cell("a", Some(a)), Cell("b", Some(b))], [], None) }

  lemma GcdVariables(a: Word, b: Word, g: Globals)
    ensures Read(GcdFrame(a, b), g, "a") == Some(Some(a)) && Read(GcdFrame(a, b), g, "b") == Some(Some(b))
  {
    var fr := GcdFrame(a, b);
    assert Names(fr.args) == ["a", "b"] && ["a", "b"][..1] == ["a"] && LocalNames(fr) == [];
    assert PlaceOf(fr, "a") == Arg(0) && PlaceOf(fr, "b") == Arg(1);
  }

  /** The algorithm of the program, for the proof. */
  function Euclid(a: nat, b: nat): nat
    decreases b
  {
    if b == 0 then a else Euclid(b, a % b)
  }

  predicate Divides(k: nat, x: int) { k > 0 && x % k == 0 }

  lemma {:induction false} EuclidDivisors(a: nat, b: nat, k: nat)
    ensures Divides(k, a) && Divides(k, b) <==> Divides(k, Euclid(a, b))
    decreases b
  {
    hide Divides;
    if b == 0 {
      ZeroDivides(k, a);
    } else {
      EuclidDivisors(b, a % b, k);
      if k > 0 { RemainderDivides(k, a, b); }
      if k == 0 { NothingDivides(a, a % b); }
    }
  }

  lemma NothingDivides(x: int, y: int)
    ensures !Divides(0, x) && !Divides(0, y)
  {
  }

  lemma ZeroDivides(k: nat, a: nat)
    ensures Divides(k, a) && Divides(k, 0) <==> Divides(k, a)
  {
  }

  lemma RemainderDivides(k: nat, a: nat, b: nat)
    requires k > 0 && b > 0
    ensures Divides(k, a) && Divides(k, b) <==> Divides(k, b) && Divides(k, a % b)
  {
    var q, r := a / b, a % b;
    assert a == b * q + r;
    if b % k == 0 {
      var m := b / k;
      assert b == k * m;
      assert b * q == k * (m * q);
      SameRest(k, m * q, r);
    }
  }

  lemma SameRest(k: nat, m: int, r: int)
    requires k > 0
    ensures (k * m + r) % k == r % k
  {
    assert r == k * (r / k) + r % k;
    assert k * m + r == k * (m + r / k) + r % k by { assert k * (m + r / k) == k * m + k * (r / k); }
    ModUnique(k * m + r, k, m + r / k, r % k);
  }

  lemma ModUnique(x: int, d: nat, q: int, r: int)
    requires d > 0 && x == d * q + r && 0 <= r < d
    ensures x % d == r
  {
    Meaning.FloorUnique(x, d, q);
    assert x == d * (x / d) + x % d;
  }

  lemma {:induction false} GcdReturns(a: Word, b: Word, g: Globals)
    requires a >= 0 && b >= 0
    ensures Euclid(a, b) <= Max(a, b)
    ensures Returns([GCD_FUN], "gcd", [Some(a), Some(b)], g, Result(Some(Euclid(a, b)), g, [Cell("a", Some(a)), Cell("b", Some(b))]))
    decreases b
  {
    hide Read, Yields, Runs, RunsAll, Returns, Apply;
    var p, fr := [GCD_FUN], GcdFrame(a, b);
    GcdVariables(a, b, g);
    VariableRule(p, fr, g, "a", Some(a));
    VariableRule(p, fr, g, "b", Some(b));
    ConstantRule(p, fr, g, 0);
    TestApplied(b);
    BinaryRule(p, fr, g, Eq, Var("b"), Const(0), b, fr, g, 0, fr, g, if b == 0 then 1 else 0);
    if b == 0 {
      ReturnRule(p, fr, g, Var("a"), Some(a), fr, g);
      GcdBody(a, b, g, a);
    } else {
      RestApplied(a, b);
      var r: Word := a % b;
      BinaryRule(p, fr, g, Mod, Var("a"), Var("b"), a, fr, g, b, fr, g, r);
      GcdReturns(b, r, g);
      var v: Word := Euclid(b, r);
      CallRule(p, fr, g, "gcd", Var("b"), Bin(Mod, Var("a"), Var("b")), Some(b), fr, g, Some(r), fr, g,
        Result(Some(v), g, [Cell("a", Some(b)), Cell("b", Some(r))]));
      ReturnRule(p, fr, g, AGAIN, Some(v), fr, g);
      GcdBody(a, b, g, v);
    }
  }

  lemma TestApplied(b: Word)
    ensures Apply(Eq, b, 0) == Some(if b == 0 then 1 else 0)
  {
  }

  lemma RestApplied(a: Word, b: Word)
    requires a >= 0 && b > 0
    ensures 0 <= a % b < b && Apply(Mod, a, b) == Some(a % b)
  {
    assert a == b * (a / b) + a % b;
    WrapIdentity(a % b);
  }

  lemma GcdBody(a: Word, b: Word, g: Globals, v: Word)
    requires var fr := GcdFrame(a, b);
      && Yields([GCD_FUN], fr, g, Bin(Eq, Var("b"), Const(0)), Some(if b == 0 then 1 else 0), fr, g)
      && Runs([GCD_FUN], fr, g, if b == 0 then GCD_IF.thn else GCD_IF.els.value, Done(Returned, fr, g, Some(v)))
    ensures Returns([GCD_FUN], "gcd", [Some(a), Some(b)], g, Result(Some(v), g, [Cell("a", Some(a)), Cell("b", Some(b))]))
  {
    hide Yields, Runs, RunsAll, Returns;
    var p, fr := [GCD_FUN], GcdFrame(a, b);
    var o := Done(Returned, fr, g, Some(v));
    IfRule(p, fr, g, GCD_IF, if b == 0 then 1 else 0, fr, g, o);
    SequenceRule(p, fr, g, GCD_IF, [], o, o);
    assert [GCD_IF] + [] == [GCD_IF];
    BlockRule(p, fr, g, [GCD_IF], o);
    assert fr.(locals := fr.locals[..0]) == fr;
    assert M2Source.Bind(["a", "b"], [Some(a), Some(b)]) == fr.args;
    BodyRule(p, "gcd", [Some(a), Some(b)], g, GCD_FUN, o);
  }

  lemma GcdParsed()
    ensures Declarations(NO_NAMES, GCD, 0) == Ok([GCD_FUN], |GCD|)
  {
    hide Declarations, F.DerivedFile, F.SpellFile, T.Stands;
    GcdSpelled();
    GcdDerived();
    ItselfStands(GCD);
    var f := F.Function("gcd", ["a", "b"], Block([GCD_IF]));
    F.FileTrip(NO_NAMES, [f], GCD, 0);
    OneFunction(f);
  }

  /** The program text: gcd(a, b) has exactly the common divisors of a and b as divisors. */
  lemma GcdProgram(a: Word, b: Word, g: Globals) returns (d: Word)
    requires a >= 0 && b >= 0
    ensures var r := Declarations(NO_NAMES, GCD, 0);
      r.Ok? && Returns(r.v, "gcd", [Some(a), Some(b)], g, Result(Some(d), g, [Cell("a", Some(a)), Cell("b", Some(b))]))
    ensures d >= 0 && forall k: nat :: Divides(k, a) && Divides(k, b) <==> Divides(k, d)
  {
    hide Declarations, Returns, Divides;
    GcdParsed();
    GcdReturns(a, b, g);
    d := Euclid(a, b);
    forall k: nat ensures Divides(k, a) && Divides(k, b) <==> Divides(k, d) {
      EuclidDivisors(a, b, k);
    }
  }

  // ----- CONSTANT STEP 1
  //       int limit;
  //       int root(int n) { int i; limit = n;
  //         for (i = 0; 1; i = i + STEP) { int k; k = i + STEP; if (k * k > limit) break; }
  //         return i; } -----

  const ROOT_HEAD := [Name("CONSTANT"), Name("STEP"), Num(1), Name("int"), Name("limit"), Sym(";"),
    Name("int"), Name("root"), Sym("("), Name("int"), Name("n"), Sym(")"), Sym("{")]
  const ROOT_START := [Name("int"), Name("i"), Sym(";"), Name("limit"), Sym("="), Name("n"), Sym(";")]
  const ROOT_FOR := [Name("for"), Sym("("), Name("i"), Sym("="), Num(0), Sym(";"), Num(1), Sym(";"),
    Name("i"), Sym("="), Name("i"), Sym("+"), Name("STEP"), Sym(")")]
  const ROOT_ROUND := [Sym("{"), Name("int"), Name("k"), Sym(";"), Name("k"), Sym("="), Name("i"), Sym("+"), Name("STEP"), Sym(";")]
  const ROOT_TEST := [Name("if"), Sym("("), Name("k"), Sym("*"), Name("k"), Sym(">"), Name("limit"), Sym(")"),
    Name("break"), Sym(";"), Sym("}")]
  const ROOT_END := [Name("return"), Name("i"), Sym(";"), Sym("}")]
  const ROOT: seq<Token> := ROOT_HEAD + ROOT_START + ROOT_FOR + ROOT_ROUND + ROOT_TEST + ROOT_END

  const NEXT_I := Bin(Add, Var("i"), Var("STEP"))
  const TOO_BIG := Bin(Gt, Bin(Mul, Var("k"), Var("k")), Var("limit"))
  const LEAVE := If(TOO_BIG, Break, None)
  const ROUND: seq<Stmt> := [Decl("k", None), Set("k", NEXT_I), LEAVE]
  const ROOT_LOOP := For(Some(Assign(LVal("i"), Const(0))), Const(1), Assign(LVal("i"), NEXT_I), Block(ROUND))
  const ROOT_BODY: seq<Stmt> := [Decl("i", None), Set("limit", Var("n")), ROOT_LOOP, Return(Some(Var("i")))]
  const ROOT_SCOPE := Scope(map["STEP" := 1], {"root"}, {"limit", "root"})
  const ROOT_FUN := Fun("root", ["n"], Block(ROOT_BODY), ROOT_SCOPE)
  const ROOT_FILE: seq<F.Item> := [F.Constant("STEP", 1), F.Global("limit"), F.Function("root", ["n"], Block(ROOT_BODY))]

  lemma RootExpressionsSpelled()
    ensures T.Spell(NEXT_I) == [Name("i"), Sym("+"), Name("STEP")]
    ensures T.Spell(TOO_BIG) == [Name("k"), Sym("*"), Name("k"), Sym(">"), Name("limit")]
  {
    assert T.Spell(Bin(Mul, Var("k"), Var("k"))) == [Name("k"), Sym("*"), Name("k")];
  }

  lemma RoundSpelled()
    ensures F.SpellStmt(Block(ROUND)) == ROOT_ROUND + ROOT_TEST
  {
    hide T.Spell;
    RootExpressionsSpelled();
    SimpleSpelled("k", NEXT_I);
    LeaveSpelled(TOO_BIG);
    BlockSpelled(ROUND);
    hide F.SpellStmt, F.SpellAll;
    SetSpelled("k", NEXT_I);
    AllSpelled(LEAVE, []);
    AllSpelled(Set("k", NEXT_I), [LEAVE]);
    AllSpelled(Decl("k", None), [Set("k", NEXT_I), LEAVE]);
    assert [LEAVE] + [] == [LEAVE] && [Set("k", NEXT_I)] + [LEAVE] == [Set("k", NEXT_I), LEAVE];
    assert [Decl("k", None)] + [Set("k", NEXT_I), LEAVE] == ROUND;
  }

  lemma BlockSpelled(b: seq<Stmt>)
    ensures F.SpellStmt(Block(b)) == [Sym("{")] + F.SpellAll(b)
  {
    hide F.SpellAll;
  }

  lemma LeaveSpelled(c: Expr)
    ensures F.SpellStmt(If(c, Break, None)) == [Name("if"), Sym("(")] + T.Spell(c) + [Sym(")"), Name("break"), Sym(";")]
  {
    hide T.Spell;
  }

  lemma ForSpelled(x: string, e: Expr, c: Expr, y: string, d: Expr, b: Stmt)
    ensures F.SpellStmt(For(Some(Assign(LVal(x), e)), c, Assign(LVal(y), d), b))
      == [Name("for"), Sym("("), Name(x), Sym("=")] + T.Spell(e) + [Sym(";")] + T.Spell(c) + [Sym(";"), Name(y), Sym("=")] + T.Spell(d)
        + [Sym(")")] + F.SpellStmt(b)
  {
    hide T.Spell, F.SpellStart, F.SpellEnd;
    var start, step := Assign(LVal(x), e), Assign(LVal(y), d);
    AssignSpelled(x, e);
    AssignSpelled(y, d);
    PartsSpelled(start, c);
    ForShape(start, c, step, b);
  }

  lemma PartsSpelled(start: Expr, c: Expr)
    ensures F.SpellStart(Some(start)) == [Sym("(")] + T.Spell(start) + [Sym(";")] && F.SpellEnd(c) == T.Spell(c) + [Sym(";")]
  {
    hide T.Spell;
  }

  lemma ForShape(start: Expr, c: Expr, step: Expr, b: Stmt)
    ensures F.SpellStmt(For(Some(start), c, step, b))
      == [Name("for")] + F.SpellStart(Some(start)) + (F.SpellEnd(c) + (T.Spell(step) + [Sym(")")])) + F.SpellStmt(b)
  {
    hide T.Spell, F.SpellStart, F.SpellEnd;
  }

  lemma RootSpelled()
    ensures F.SpellFile(ROOT_FILE) == ROOT
  {
    hide T.Spell, F.SpellStmt, F.SpellAll, F.SpellFile, F.SpellParams;
    RootExpressionsSpelled();
    RoundSpelled();
    VariableSpelled("n", 0);
    VariableSpelled("i", 1);
    ForSpelled("i", Const(0), Const(1), "i", NEXT_I, Block(ROUND));
    assert F.SpellStmt(ROOT_LOOP) == ROOT_FOR + (ROOT_ROUND + ROOT_TEST);
    RootBodySpelled();
    ParamsSpelled("n", "n");
    FunctionSpelled("root", ["n"], ROOT_BODY);
    FileSpelled(ROOT_FILE[2]);
  }

  lemma RootBodySpelled()
    ensures F.SpellAll(ROOT_BODY) == ROOT_START + F.SpellStmt(ROOT_LOOP) + ROOT_END
  {
    hide T.Spell, F.SpellStmt, F.SpellAll;
    var first, second, last := Decl("i", None), Set("limit", Var("n")), Return(Some(Var("i")));
    VariableSpelled("n", 0);
    VariableSpelled("i", 0);
    SetSpelled("limit", Var("n"));
    SimpleSpelled("i", Var("i"));
    AllSpelled(last, []);
    AllSpelled(ROOT_LOOP, [last]);
    AllSpelled(second, [ROOT_LOOP, last]);
    AllSpelled(first, [second, ROOT_LOOP, last]);
    assert [last] + [] == [last] && [ROOT_LOOP] + [last] == [ROOT_LOOP, last];
    assert [second] + [ROOT_LOOP, last] == [second, ROOT_LOOP, last];
    assert [first] + [second, ROOT_LOOP, last] == ROOT_BODY;
  }

  lemma FileSpelled(d: F.Item)
    ensures F.SpellFile([F.Constant("STEP", 1), F.Global("limit"), d])
      == [Name("CONSTANT"), Name("STEP"), Num(1), Name("int"), Name("limit"), Sym(";")] + F.SpellFile([d])
  {
    hide F.SpellParams, F.SpellStmt;
    var a, b := F.Constant("STEP", 1), F.Global("limit");
    FileStep(a, [b, d]);
    FileStep(b, [d]);
    assert [a] + [b, d] == [a, b, d] && [b] + [d] == [b, d];
    assert F.SpellItem(a) == [Name("CONSTANT"), Name("STEP"), Num(1)] && F.SpellItem(b) == [Name("int"), Name("limit"), Sym(";")];
    hide F.SpellFile, F.SpellItem;
  }

  lemma FileStep(d: F.Item, ds: seq<F.Item>)
    ensures F.SpellFile([d] + ds) == F.SpellItem(d) + F.SpellFile(ds)
  {
    hide F.SpellItem;
    assert ([d] + ds)[1..] == ds;
  }

  lemma RootUsable(env: C.Env)
    requires env.scope == ROOT_SCOPE && env.args == ["n"] && (env.locals == ["i"] || env.locals == ["i", "k"])
    ensures forall x :: x in {"STEP", "limit", "n", "i"} ==> Usable(env, x)
    ensures |env.locals| == 2 ==> Usable(env, "k")
  {
    assert ["i", "k"][..1] == ["i"];
    assert C.Locate(env, "STEP").Constant? && C.Locate(env, "limit").Global? && C.Locate(env, "n") == Arg(0) && C.Locate(env, "i") == Local(0);
    assert |env.locals| == 2 ==> C.Locate(env, "k") == Local(1);
  }

  lemma VariableDerived(env: C.Env, x: string)
    requires Usable(env, x)
    ensures forall rank: nat :: T.Derived(env, Var(x), rank)
  {
  }

  lemma NextDerived(env: C.Env)
    requires Usable(env, "i") && Usable(env, "STEP")
    ensures T.Derived(env, NEXT_I, 4) && T.Derived(env, Assign(LVal("i"), NEXT_I), 4)
  {
    hide C.Locate;
    assert T.Derived(env, Var("i"), 1) && T.Derived(env, Var("STEP"), 0);
    assert T.Derived(env, NEXT_I, 4);
  }

  lemma StartDerived(env: C.Env)
    requires Usable(env, "i")
    ensures T.Derived(env, Assign(LVal("i"), Const(0)), 4) && T.Derived(env, Const(1), 4)
  {
    hide C.Locate;
    assert T.Derived(env, Const(0), 4);
  }

  lemma TestDerived(env: C.Env)
    requires Usable(env, "k") && Usable(env, "limit")
    ensures T.Derived(env, TOO_BIG, 4)
  {
    hide C.Locate;
    assert T.Derived(env, Var("k"), 1) && T.Derived(env, Var("k"), 0) && T.Derived(env, Var("limit"), 1);
    assert T.Derived(env, Bin(Mul, Var("k"), Var("k")), 2);
  }

  lemma RoundDerived(env: C.Env)
    requires env.scope == ROOT_SCOPE && env.args == ["n"] && env.locals == ["i"]
    ensures F.DerivedStmt(env, Block(ROUND), true)
  {
    hide T.Derived, Usable, F.DerivedAll;
    var inner := env.(locals := ["i", "k"]);
    RootUsable(inner);
    NextDerived(inner);
    TestDerived(inner);
    assert "k" !in KEYWORDS;
    SetDerived(inner, "k", NEXT_I, true);
    assert F.DerivedStmt(inner, LEAVE, true) by { assert F.DerivedStmt(inner, Break, true); }
    assert [LEAVE] + [] == [LEAVE] && [Set("k", NEXT_I)] + [LEAVE] == [Set("k", NEXT_I), LEAVE];
    assert [Decl("k", None)] + [Set("k", NEXT_I), LEAVE] == ROUND;
    assert F.DerivedAll(inner, [], true) by { AllDerivedEmpty(inner, true); }
    AllDerived(inner, LEAVE, [], true);
    AllDerived(inner, Set("k", NEXT_I), [LEAVE], true);
    assert F.DerivedStmt(env, Decl("k", None), true) && C.After(env, Decl("k", None)) == inner by {
      assert env.locals + ["k"] == ["i", "k"];
    }
    AllDerived(env, Decl("k", None), [Set("k", NEXT_I), LEAVE], true);
  }

  lemma AllDerivedEmpty(env: C.Env, inLoop: bool)
    ensures F.DerivedAll(env, [], inLoop)
  {
  }

  lemma RootLoopDerived(env: C.Env)
    requires env.scope == ROOT_SCOPE && env.args == ["n"] && env.locals == ["i"]
    ensures F.DerivedStmt(env, ROOT_LOOP, false)
  {
    hide T.Derived, Usable, F.DerivedAll;
    RootUsable(env);
    StartDerived(env);
    NextDerived(env);
    RoundDerived(env);
  }

  lemma RootBodyDerived(env0: C.Env)
    requires env0.scope == ROOT_SCOPE && env0.args == ["n"] && env0.locals == []
    ensures F.DerivedAll(env0, ROOT_BODY, false)
  {
    hide T.Derived, Usable, F.DerivedAll, F.DerivedStmt;
    var first, second, last := Decl("i", None), Set("limit", Var("n")), Return(Some(Var("i")));
    var env := env0.(locals := ["i"]);
    assert env0.locals + ["i"] == ["i"];
    RootUsable(env);
    VariableDerived(env, "n");
    VariableDerived(env, "i");
    RootLoopDerived(env);
    assert "limit" !in KEYWORDS && "i" !in KEYWORDS;
    SetDerived(env, "limit", Var("n"), false);
    DeclaredThenReturned(env0, env, "i");
    assert [last] + [] == [last] && [ROOT_LOOP] + [last] == [ROOT_LOOP, last];
    assert [second] + [ROOT_LOOP, last] == [second, ROOT_LOOP, last];
    assert [first] + [second, ROOT_LOOP, last] == ROOT_BODY;
    AllDerived(env, last, [], false);
    AllDerived(env, ROOT_LOOP, [last], false);
    AllDerived(env, second, [ROOT_LOOP, last], false);
    AllDerived(env0, first, [second, ROOT_LOOP, last], false);
  }

  lemma DeclaredThenReturned(env0: C.Env, env: C.Env, x: string)
    requires env == env0.(locals := env0.locals + [x]) && T.Derived(env, Var(x), 4) && x !in KEYWORDS
    ensures F.DerivedStmt(env0, Decl(x, None), false) && C.After(env0, Decl(x, None)) == env
    ensures F.DerivedStmt(env, Return(Some(Var(x))), false) && F.DerivedAll(env, [], false)
  {
    hide T.Derived;
  }

  lemma RootDerived()
    ensures F.DerivedFile(NO_NAMES, ROOT_FILE)
  {
    hide F.DerivedAll;
    RootBodyDerived(C.Env("root", ROOT_SCOPE, ["n"], []));
    var sc1 := Scope(map["STEP" := 1], {}, {});
    var sc2 := Scope(map["STEP" := 1], {}, {"limit"});
    assert F.Known(NO_NAMES, ROOT_FILE[0]) == sc1 && F.Known(sc1, ROOT_FILE[1]) == sc2 && F.Known(sc2, ROOT_FILE[2]) == ROOT_SCOPE;
    assert "n" !in KEYWORDS;
    assert F.DerivedStmt(C.Env("root", ROOT_SCOPE, ["n"], []), Block(ROOT_BODY), false);
    assert ROOT_FILE[1..] == [ROOT_FILE[1], ROOT_FILE[2]] && [ROOT_FILE[1], ROOT_FILE[2]][1..] == [ROOT_FILE[2]] && [ROOT_FILE[2]][1..] == [];
    assert F.DerivedFile(sc2, [ROOT_FILE[2]]);
    assert F.DerivedFile(sc1, [ROOT_FILE[1], ROOT_FILE[2]]);
  }

  /** Outside the block there is i, inside also k. */
  function RootFrame(n: Word, i: Num): Frame { Frame(ROOT_SCOPE, [Cell("n", Some(n))], [Cell("i", i)], None) }

  function RoundFrame(n: Word, i: Word, k: Num): Frame {
    Frame(ROOT_SCOPE, [Cell("n", Some(n))], [Cell("i", Some(i)), Cell("k", k)], None)
  }

  lemma RootVariables(n: Word, i: Num, g: Globals, v: Word)
    requires "limit" in g
    ensures var fr := RootFrame(n, i);
      && Read(fr, g, "n") == Some(Some(n)) && Read(fr, g, "i") == Some(i) && Read(fr, g, "STEP") == Some(Some(1))
      && Write(fr, g, "i", Some(v)) == Some((RootFrame(n, Some(v)), g))
      && Write(fr, g, "limit", Some(v)) == Some((fr, g["limit" := Some(v)]))
  {
    var fr := RootFrame(n, i);
    assert Names(fr.args) == ["n"] && LocalNames(fr) == ["i"];
    assert PlaceOf(fr, "n") == Arg(0) && PlaceOf(fr, "i") == Local(0) && PlaceOf(fr, "STEP") == Constant(1) && PlaceOf(fr, "limit") == Global;
    assert fr.locals[0 := Cell("i", Some(v))] == [Cell("i", Some(v))];
  }

  lemma RoundVariables(n: Word, i: Word, k: Num, g: Globals, v: Word)
    requires "limit" in g
    ensures var fr := RoundFrame(n, i, k);
      && Read(fr, g, "i") == Some(Some(i)) && Read(fr, g, "k") == Some(k) && Read(fr, g, "STEP") == Some(Some(1))
      && Read(fr, g, "limit") == Some(g["limit"])
      && Write(fr, g, "k", Some(v)) == Some((RoundFrame(n, i, Some(v)), g))
  {
    var fr := RoundFrame(n, i, k);
    assert Names(fr.args) == ["n"] && LocalNames(fr) == ["i", "k"] && ["i", "k"][..1] == ["i"];
    assert PlaceOf(fr, "i") == Local(0) && PlaceOf(fr, "k") == Local(1) && PlaceOf(fr, "STEP") == Constant(1) && PlaceOf(fr, "limit") == Global;
    assert fr.locals[1 := Cell("k", Some(v))] == [Cell("i", Some(i)), Cell("k", Some(v))];
  }

  const LARGEST := 46340

  /** k * k > limit, for a k whose square is a word. */
  lemma TestYields(p: Program, n: Word, i: Word, k: Word, g: Globals)
    requires 0 <= k <= LARGEST && "limit" in g && g["limit"] == Some(n)
    ensures var fr := RoundFrame(n, i, Some(k)); Yields(p, fr, g, TOO_BIG, Some(if k * k > n then 1 else 0), fr, g)
  {
    hide Read, Yields, Apply;
    var fr := RoundFrame(n, i, Some(k));
    RoundVariables(n, i, Some(k), g, 0);
    VariableRule(p, fr, g, "k", Some(k));
    VariableRule(p, fr, g, "limit", Some(n));
    SquareApplied(k, n);
    BinaryRule(p, fr, g, Mul, Var("k"), Var("k"), k, fr, g, k, fr, g, k * k);
    BinaryRule(p, fr, g, Gt, Bin(Mul, Var("k"), Var("k")), Var("limit"), k * k, fr, g, n, fr, g, if k * k > n then 1 else 0);
  }

  lemma SquareApplied(k: Word, n: Word)
    requires 0 <= k <= LARGEST
    ensures -0x8000_0000 <= k * k < 0x8000_0000 && Apply(Mul, k, k) == Some(k * k)
    ensures Apply(Gt, k * k, n) == Some(if k * k > n then 1 else 0)
  {
    MulMonotone(k, LARGEST, k);
    MulMonotone(k, LARGEST, LARGEST);
    WrapIdentity(k * k);
  }

  /** i + STEP, wherever both are visible. */
  lemma NextYields(p: Program, fr: Frame, g: Globals, i: Word)
    requires 0 <= i < LARGEST && Read(fr, g, "i") == Some(Some(i)) && Read(fr, g, "STEP") == Some(Some(1))
    ensures Yields(p, fr, g, NEXT_I, Some(i + 1), fr, g)
  {
    hide Read, Yields;
    VariableRule(p, fr, g, "i", Some(i));
    VariableRule(p, fr, g, "STEP", Some(1));
    WrapIdentity(i + 1);
    BinaryRule(p, fr, g, Add, Var("i"), Var("STEP"), i, fr, g, 1, fr, g, i + 1);
  }

  /** One round leaves the loop exactly when the square of the next number exceeds n; k is gone either way. */
  lemma RootRound(p: Program, n: Word, i: Word, g: Globals)
    requires 0 <= i < LARGEST && "limit" in g && g["limit"] == Some(n)
    ensures var fr := RootFrame(n, Some(i));
      Runs(p, fr, g, Block(ROUND), Done(if (i + 1) * (i + 1) > n then Broke else Normal, fr, g, None))
  {
    hide Read, Write, Yields, Runs, RunsAll;
    var fr := RootFrame(n, Some(i));
    var fr1, fr2 := RoundFrame(n, i, None), RoundFrame(n, i, Some(i + 1));
    var big := (i + 1) * (i + 1) > n;
    var o := Done(if big then Broke else Normal, fr2, g, None);
    DeclarationRule(p, fr, g, "k");
    assert fr.(locals := fr.locals + [Cell("k", None)]) == fr1;
    RoundVariables(n, i, None, g, i + 1);
    NextYields(p, fr1, g, i);
    AssignRule(p, fr1, g, "k", NEXT_I, Some(i + 1), fr1, g, fr2, g);
    ExpressionRule(p, fr1, g, Assign(LVal("k"), NEXT_I), Some(i + 1), fr2, g);
    TestYields(p, n, i, i + 1, g);
    BreakRule(p, fr2, g);
    IfRule(p, fr2, g, LEAVE, if big then 1 else 0, fr2, g, o);
    NothingRule(p, fr2, g);
    SequenceRule(p, fr2, g, LEAVE, [], o, o);
    SequenceRule(p, fr1, g, Set("k", NEXT_I), [LEAVE] + [], Done(Normal, fr2, g, Some(i + 1)), o);
    SequenceRule(p, fr, g, Decl("k", None), [Set("k", NEXT_I)] + ([LEAVE] + []), Done(Normal, fr1, g, None), o);
    assert [Decl("k", None)] + ([Set("k", NEXT_I)] + ([LEAVE] + [])) == ROUND;
    BlockRule(p, fr, g, ROUND, o);
    assert fr2.(locals := fr2.locals[..1]) == fr;
  }

  predicate RootOf(r: int, n: int) { 0 <= r && r * r <= n < (r + 1) * (r + 1) }

  lemma {:induction false} RootLoop(p: Program, n: Word, i: Word, g: Globals) returns (r: Word)
    requires 0 <= i < LARGEST && i * i <= n < LARGEST * LARGEST && "limit" in g && g["limit"] == Some(n)
    ensures RootOf(r, n)
    ensures Runs(p, RootFrame(n, Some(i)), g, ROOT_LOOP.(start := None), Done(Normal, RootFrame(n, Some(r)), g, None))
    decreases LARGEST - i
  {
    hide Read, Write, Yields, Runs, RunsAll;
    var fr, loop := RootFrame(n, Some(i)), ROOT_LOOP.(start := None);
    var next := RootFrame(n, Some(i + 1));
    ConstantRule(p, fr, g, 1);
    RootRound(p, n, i, g);
    RootVariables(n, Some(i), g, i + 1);
    NextYields(p, fr, g, i);
    AssignRule(p, fr, g, "i", NEXT_I, Some(i + 1), fr, g, next, g);
    if (i + 1) * (i + 1) > n {
      r := i;
      ForRule(p, fr, g, loop, 1, fr, g, Done(Broke, fr, g, None), None, fr, g, Done(Normal, fr, g, None));
    } else {
      BelowLargest(i + 1, n);
      r := RootLoop(p, n, i + 1, g);
      ForRule(p, fr, g, loop, 1, fr, g, Done(Normal, fr, g, None), Some(i + 1), next, g, Done(Normal, RootFrame(n, Some(r)), g, None));
    }
  }

  lemma BelowLargest(k: nat, n: int)
    requires k * k <= n < LARGEST * LARGEST
    ensures k < LARGEST
  {
    if k >= LARGEST {
      MulMonotone(LARGEST, k, LARGEST);
      MulMonotone(LARGEST, k, k);
    }
  }

  /** The program text: root(n) is the integer square root, and the global keeps n. */
  lemma RootProgram(n: Word, g: Globals) returns (r: Word)
    requires 0 <= n < LARGEST * LARGEST && "limit" in g
    ensures var p := Declarations(NO_NAMES, ROOT, 0);
      p.Ok? && Returns(p.v, "root", [Some(n)], g, Result(Some(r), g["limit" := Some(n)], [Cell("n", Some(n))]))
    ensures RootOf(r, n)
  {
    hide Declarations, F.DerivedFile, F.SpellFile, Returns, T.Stands, Runs, RunsAll, F.Functions;
    RootSpelled();
    RootDerived();
    ItselfStands(ROOT);
    F.FileTrip(NO_NAMES, ROOT_FILE, ROOT, 0);
    RootFunctions();
    r := RootBody([ROOT_FUN], n, g);
    var fr := Frame(ROOT_SCOPE, [Cell("n", Some(n))], [], None);
    assert M2Source.Bind(["n"], [Some(n)]) == [Cell("n", Some(n))];
    BodyRule([ROOT_FUN], "root", [Some(n)], g, ROOT_FUN, Done(Returned, fr, g["limit" := Some(n)], Some(r)));
  }

  lemma RootFunctions()
    ensures F.Functions(NO_NAMES, ROOT_FILE) == [ROOT_FUN]
  {
    var sc1 := Scope(map["STEP" := 1], {}, {});
    var sc2 := Scope(map["STEP" := 1], {}, {"limit"});
    assert F.Known(NO_NAMES, ROOT_FILE[0]) == sc1 && F.Known(sc1, ROOT_FILE[1]) == sc2 && F.Known(sc2, ROOT_FILE[2]) == ROOT_SCOPE;
    assert ROOT_FILE[1..] == [ROOT_FILE[1], ROOT_FILE[2]] && [ROOT_FILE[1], ROOT_FILE[2]][1..] == [ROOT_FILE[2]] && [ROOT_FILE[2]][1..] == [];
    assert F.Functions(sc2, [ROOT_FILE[2]]) == [ROOT_FUN];
    assert F.Functions(sc1, [ROOT_FILE[1], ROOT_FILE[2]]) == [ROOT_FUN];
  }

  lemma RootBody(p: Program, n: Word, g: Globals) returns (r: Word)
    requires 0 <= n < LARGEST * LARGEST && "limit" in g
    ensures var fr := Frame(ROOT_SCOPE, [Cell("n", Some(n))], [], None);
      RootOf(r, n) && Runs(p, fr, g, Block(ROOT_BODY), Done(Returned, fr, g["limit" := Some(n)], Some(r)))
  {
    hide Read, Write, Yields, Runs, RunsAll;
    var fr := Frame(ROOT_SCOPE, [Cell("n", Some(n))], [], None);
    var g1 := g["limit" := Some(n)];
    var first, second, last := Decl("i", None), Set("limit", Var("n")), Return(Some(Var("i")));
    var fr1, fr2 := RootFrame(n, None), RootFrame(n, Some(0));
    r := RootLoop(p, n, 0, g1);
    var fr3 := RootFrame(n, Some(r));
    var o := Done(Returned, fr3, g1, Some(r));
    DeclarationRule(p, fr, g, "i");
    assert fr.(locals := fr.locals + [Cell("i", None)]) == fr1;
    RootVariables(n, None, g, n);
    VariableRule(p, fr1, g, "n", Some(n));
    AssignRule(p, fr1, g, "limit", Var("n"), Some(n), fr1, g, fr1, g1);
    ExpressionRule(p, fr1, g, Assign(LVal("limit"), Var("n")), Some(n), fr1, g1);
    ConstantRule(p, fr1, g1, 0);
    RootVariables(n, None, g1, 0);
    AssignRule(p, fr1, g1, "i", Const(0), Some(0), fr1, g1, fr2, g1);
    ForStartRule(p, fr1, g1, ROOT_LOOP, Some(0), fr2, g1, Done(Normal, fr3, g1, None));
    RootVariables(n, Some(r), g1, 0);
    VariableRule(p, fr3, g1, "i", Some(r));
    ReturnRule(p, fr3, g1, Var("i"), Some(r), fr3, g1);
    SequenceRule(p, fr3, g1, last, [], o, o);
    SequenceRule(p, fr1, g1, ROOT_LOOP, [last] + [], Done(Normal, fr3, g1, None), o);
    SequenceRule(p, fr1, g, second, [ROOT_LOOP] + ([last] + []), Done(Normal, fr1, g1, Some(n)), o);
    SequenceRule(p, fr, g, first, [second] + ([ROOT_LOOP] + ([last] + [])), Done(Normal, fr1, g, None), o);
    assert [first] + ([second] + ([ROOT_LOOP] + ([last] + []))) == ROOT_BODY;
    BlockRule(p, fr, g, ROOT_BODY, o);
    assert fr3.(locals := fr3.locals[..0]) == fr;
  }

  // ----- int digits(int n) { int k; k = 0; do { n = n / 10; k = k + 1; } while (n); return k; } -----

  const DIGITS_START := [Name("int"), Name("digits"), Sym("("), Name("int"), Name("n"), Sym(")"), Sym("{"),
    Name("int"), Name("k"), Sym(";"), Name("k"), Sym("="), Num(0), Sym(";")]
  const DIGITS_DO := [Name("do"), Sym("{"), Name("n"), Sym("="), Name("n"), Sym("/"), Num(10), Sym(";"),
    Name("k"), Sym("="), Name("k"), Sym("+"), Num(1), Sym(";"), Sym("}"), Name("while"), Sym("("), Name("n"), Sym(")"), Sym(";")]
  const DIGITS: seq<Token> := DIGITS_START + DIGITS_DO + [Name("return"), Name("k"), Sym(";"), Sym("}")]

  const TENTH := Set("n", Bin(Div, Var("n"), Const(10)))
  const COUNT := Set("k", Bin(Add, Var("k"), Const(1)))
  const DIGITS_LOOP := DoWhile(Block([TENTH, COUNT]), Var("n"))
  const DIGITS_BODY: seq<Stmt> := [Decl("k", None), Set("k", Const(0)), DIGITS_LOOP, Return(Some(Var("k")))]
  const DIGITS_SCOPE := Scope(map[], {"digits"}, {"digits"})
  const DIGITS_FUN := Fun("digits", ["n"], Block(DIGITS_BODY), DIGITS_SCOPE)

  lemma DigitsLoopSpelled()
    ensures F.SpellStmt(DIGITS_LOOP) == DIGITS_DO
  {
    hide F.SpellStmt, F.SpellAll, T.Spell;
    StepsSpelled();
    VariableSpelled("n", 0);
    SetSpelled("n", Bin(Div, Var("n"), Const(10)));
    SetSpelled("k", Bin(Add, Var("k"), Const(1)));
    AllSpelled(COUNT, []);
    AllSpelled(TENTH, [COUNT]);
    assert [COUNT] + [] == [COUNT] && [TENTH] + [COUNT] == [TENTH, COUNT];
    DoSpelled([TENTH, COUNT], Var("n"));
  }

  lemma StepsSpelled()
    ensures T.Spell(Bin(Div, Var("n"), Const(10))) == [Name("n"), Sym("/"), Num(10)]
    ensures T.Spell(Bin(Add, Var("k"), Const(1))) == [Name("k"), Sym("+"), Num(1)]
  {
  }

  lemma DoSpelled(b: seq<Stmt>, c: Expr)
    ensures F.SpellStmt(DoWhile(Block(b), c))
      == [Name("do"), Sym("{")] + F.SpellAll(b) + [Name("while"), Sym("(")] + T.Spell(c) + [Sym(")"), Sym(";")]
  {
    hide F.SpellAll, T.Spell;
    BlockSpelled(b);
    assert F.SpellStmt(DoWhile(Block(b), c))
      == [Name("do")] + F.SpellStmt(Block(b)) + ([Name("while")] + (F.SpellCondition(c) + [Sym(";")]));
  }

  lemma DigitsSpelled()
    ensures F.SpellFile([F.Function("digits", ["n"], Block(DIGITS_BODY))]) == DIGITS
  {
    hide F.SpellStmt, F.SpellAll, F.SpellFile, F.SpellParams, T.Spell;
    var first, second, last := Decl("k", None), Set("k", Const(0)), Return(Some(Var("k")));
    VariableSpelled("k", 0);
    SetSpelled("k", Const(0));
    DigitsLoopSpelled();
    SimpleSpelled("k", Var("k"));
    AllSpelled(last, []);
    AllSpelled(DIGITS_LOOP, [last]);
    AllSpelled(second, [DIGITS_LOOP, last]);
    AllSpelled(first, [second, DIGITS_LOOP, last]);
    assert [last] + [] == [last] && [DIGITS_LOOP] + [last] == [DIGITS_LOOP, last];
    assert [second] + [DIGITS_LOOP, last] == [second, DIGITS_LOOP, last];
    assert [first] + [second, DIGITS_LOOP, last] == DIGITS_BODY;
    ParamsSpelled("n", "n");
    FunctionSpelled("digits", ["n"], DIGITS_BODY);
  }

  lemma DigitsUsable(env: C.Env)
    requires env == C.Env("digits", DIGITS_SCOPE, ["n"], ["k"])
    ensures Usable(env, "k") && Usable(env, "n")
  {
    assert C.Locate(env, "k") == Local(0) && C.Locate(env, "n") == Arg(0);
  }

  lemma DigitsLoopDerived(env: C.Env)
    requires env == C.Env("digits", DIGITS_SCOPE, ["n"], ["k"])
    ensures F.DerivedStmt(env, DIGITS_LOOP, false)
  {
    hide T.Derived, Usable, F.DerivedStmt, F.DerivedAll;
    DigitsUsable(env);
    StepsDerived(env);
    assert "n" !in KEYWORDS && "k" !in KEYWORDS;
    SetDerived(env, "n", Bin(Div, Var("n"), Const(10)), true);
    SetDerived(env, "k", Bin(Add, Var("k"), Const(1)), true);
    PairDerived(env, TENTH, COUNT);
  }

  lemma StepsDerived(env: C.Env)
    requires Usable(env, "k") && Usable(env, "n")
    ensures T.Derived(env, Bin(Div, Var("n"), Const(10)), 4) && T.Derived(env, Bin(Add, Var("k"), Const(1)), 4) && T.Derived(env, Var("n"), 4)
  {
    hide C.Locate;
    assert T.Derived(env, Var("n"), 1) && T.Derived(env, Var("k"), 1) && T.Derived(env, Const(10), 0) && T.Derived(env, Const(1), 0);
  }

  lemma PairDerived(env: C.Env, s: Stmt, t: Stmt)
    requires T.Derived(env, Var("n"), 4) && F.DerivedStmt(env, s, true) && F.DerivedStmt(env, t, true) && !s.Decl? && !t.Decl?
    ensures F.DerivedStmt(env, DoWhile(Block([s, t]), Var("n")), false)
    ensures F.DerivedStmt(env, While(Var("n"), Block([s, t])), false)
  {
    hide T.Derived;
    AllDerived(env, t, [], true);
    AllDerived(env, s, [t], true);
    assert [t] + [] == [t] && [s] + [t] == [s, t];
  }

  lemma DigitsDerived()
    ensures F.DerivedFile(NO_NAMES, [F.Function("digits", ["n"], Block(DIGITS_BODY))])
  {
    hide T.Derived, F.DerivedStmt, F.DerivedAll, Usable;
    var env0, env := C.Env("digits", DIGITS_SCOPE, ["n"], []), C.Env("digits", DIGITS_SCOPE, ["n"], ["k"]);
    var first, second, last := Decl("k", None), Set("k", Const(0)), Return(Some(Var("k")));
    DigitsUsable(env);
    VariableDerived(env, "k");
    StartConstant(env);
    assert "n" !in KEYWORDS && "k" !in KEYWORDS;
    DigitsLoopDerived(env);
    SetDerived(env, "k", Const(0), false);
    DeclaredThenReturned(env0, env, "k");
    assert [last] + [] == [last] && [DIGITS_LOOP] + [last] == [DIGITS_LOOP, last];
    assert [second] + [DIGITS_LOOP, last] == [second, DIGITS_LOOP, last];
    assert [first] + [second, DIGITS_LOOP, last] == DIGITS_BODY;
    AllDerived(env, last, [], false);
    AllDerived(env, DIGITS_LOOP, [last], false);
    AllDerived(env, second, [DIGITS_LOOP, last], false);
    AllDerived(env0, first, [second, DIGITS_LOOP, last], false);
    FunctionDerived("digits", ["n"], DIGITS_BODY);
  }

  lemma StartConstant(env: C.Env)
    ensures T.Derived(env, Const(0), 4)
  {
  }

  function DigitsFrame(n: Word, k: Num): Frame { Frame(DIGITS_SCOPE, [Cell("n", Some(n))], [Cell("k", k)], None) }

  lemma DigitsVariables(n: Word, k: Num, g: Globals, v: Word)
    ensures Read(DigitsFrame(n, k), g, "n") == Some(Some(n)) && Read(DigitsFrame(n, k), g, "k") == Some(k)
    ensures Write(DigitsFrame(n, k), g, "n", Some(v)) == Some((DigitsFrame(v, k), g))
    ensures Write(DigitsFrame(n, k), g, "k", Some(v)) == Some((DigitsFrame(n, Some(v)), g))
  {
    var fr := DigitsFrame(n, k);
    assert Names(fr.args) == ["n"] && LocalNames(fr) == ["k"];
    assert PlaceOf(fr, "n") == Arg(0) && PlaceOf(fr, "k") == Local(0);
    assert fr.args[0 := Cell("n", Some(v))] == [Cell("n", Some(v))] && fr.locals[0 := Cell("k", Some(v))] == [Cell("k", Some(v))];
  }

  lemma TenthApplied(n: Word)
    requires n >= 0
    ensures Apply(Div, n, 10) == Some(n / 10)
  {
  }

  lemma DigitsRound(p: Program, n: Word, k: Word, g: Globals)
    requires n >= 0 && 0 <= k < 100
    ensures Runs(p, DigitsFrame(n, Some(k)), g, Block([TENTH, COUNT]), Done(Normal, DigitsFrame(n / 10, Some(k + 1)), g, None))
  {
    hide Read, Write, Yields, Runs, RunsAll, Apply;
    var fr, fr1, fr2 := DigitsFrame(n, Some(k)), DigitsFrame(n / 10, Some(k)), DigitsFrame(n / 10, Some(k + 1));
    DigitsVariables(n, Some(k), g, n / 10);
    VariableRule(p, fr, g, "n", Some(n));
    ConstantRule(p, fr, g, 10);
    TenthApplied(n);
    BinaryRule(p, fr, g, Div, Var("n"), Const(10), n, fr, g, 10, fr, g, n / 10);
    AssignRule(p, fr, g, "n", Bin(Div, Var("n"), Const(10)), Some(n / 10), fr, g, fr1, g);
    ExpressionRule(p, fr, g, TENTH.e, Some(n / 10), fr1, g);
    DigitsVariables(n / 10, Some(k), g, k + 1);
    VariableRule(p, fr1, g, "k", Some(k));
    ConstantRule(p, fr1, g, 1);
    assert Apply(Add, k, 1) == Some(k + 1) by { CountApplied(k); }
    BinaryRule(p, fr1, g, Add, Var("k"), Const(1), k, fr1, g, 1, fr1, g, k + 1);
    AssignRule(p, fr1, g, "k", Bin(Add, Var("k"), Const(1)), Some(k + 1), fr1, g, fr2, g);
    ExpressionRule(p, fr1, g, COUNT.e, Some(k + 1), fr2, g);
    NothingRule(p, fr2, g);
    SequenceRule(p, fr1, g, COUNT, [], Done(Normal, fr2, g, Some(k + 1)), Done(Normal, fr2, g, None));
    SequenceRule(p, fr, g, TENTH, [COUNT] + [], Done(Normal, fr1, g, Some(n / 10)), Done(Normal, fr2, g, None));
    assert [TENTH] + ([COUNT] + []) == [TENTH, COUNT];
    BlockRule(p, fr, g, [TENTH, COUNT], Done(Normal, fr2, g, None));
    assert fr2.(locals := fr2.locals[..1]) == fr2;
  }

  lemma CountApplied(k: Word)
    requires 0 <= k < 100
    ensures Apply(Add, k, 1) == Some(k + 1)
  {
  }

  function Power10(k: nat): nat { if k == 0 then 1 else 10 * Power10(k - 1) }

  lemma {:induction false} DigitsLoop(p: Program, n: Word, k: Word, fuel: nat, g: Globals) returns (d: nat)
    requires 0 <= n < Power10(fuel) && 0 < fuel && 0 <= k && k + fuel <= 100
    ensures 0 < d <= fuel && n < Power10(d) && (d > 1 ==> Power10(d - 1) <= n)
    ensures Runs(p, DigitsFrame(n, Some(k)), g, DIGITS_LOOP, Done(Normal, DigitsFrame(0, Some(k + d)), g, None))
    decreases fuel
  {
    hide Read, Write, Yields, Runs, RunsAll;
    var next := DigitsFrame(n / 10, Some(k + 1));
    DigitsRound(p, n, k, g);
    DigitsVariables(n / 10, Some(k + 1), g, 0);
    VariableRule(p, next, g, "n", Some(n / 10));
    var b := Done(Normal, next, g, None);
    if n / 10 == 0 {
      d := 1;
      DoRule(p, DigitsFrame(n, Some(k)), g, DIGITS_LOOP, b, 0, next, g, b);
    } else {
      var e := DigitsLoop(p, n / 10, k + 1, fuel - 1, g);
      d := e + 1;
      DoRule(p, DigitsFrame(n, Some(k)), g, DIGITS_LOOP, b, n / 10, next, g, Done(Normal, DigitsFrame(0, Some(k + d)), g, None));
    }
  }

  lemma DigitsBody(p: Program, n: Word, g: Globals) returns (d: nat)
    requires n >= 0
    ensures 0 < d < 100 && n < Power10(d) && (d > 1 ==> Power10(d - 1) <= n)
    ensures var fr := Frame(DIGITS_SCOPE, [Cell("n", Some(n))], [], None);
      Runs(p, fr, g, Block(DIGITS_BODY), Done(Returned, fr.(args := [Cell("n", Some(0))]), g, Some(d)))
  {
    hide Read, Write, Yields, Runs, RunsAll;
    var fr := Frame(DIGITS_SCOPE, [Cell("n", Some(n))], [], None);
    var first, second, last := Decl("k", None), Set("k", Const(0)), Return(Some(Var("k")));
    var fr1, fr2 := DigitsFrame(n, None), DigitsFrame(n, Some(0));
    TenDigits();
    d := DigitsLoop(p, n, 0, 10, g);
    var fr3 := DigitsFrame(0, Some(d));
    var o := Done(Returned, fr3, g, Some(d));
    DeclarationRule(p, fr, g, "k");
    assert fr.(locals := fr.locals + [Cell("k", None)]) == fr1;
    DigitsVariables(n, None, g, 0);
    ConstantRule(p, fr1, g, 0);
    AssignRule(p, fr1, g, "k", Const(0), Some(0), fr1, g, fr2, g);
    ExpressionRule(p, fr1, g, second.e, Some(0), fr2, g);
    DigitsVariables(0, Some(d), g, 0);
    VariableRule(p, fr3, g, "k", Some(d));
    ReturnRule(p, fr3, g, Var("k"), Some(d), fr3, g);
    SequenceRule(p, fr3, g, last, [], o, o);
    SequenceRule(p, fr2, g, DIGITS_LOOP, [last] + [], Done(Normal, fr3, g, None), o);
    SequenceRule(p, fr1, g, second, [DIGITS_LOOP] + ([last] + []), Done(Normal, fr2, g, Some(0)), o);
    SequenceRule(p, fr, g, first, [second] + ([DIGITS_LOOP] + ([last] + [])), Done(Normal, fr1, g, None), o);
    assert [first] + ([second] + ([DIGITS_LOOP] + ([last] + []))) == DIGITS_BODY;
    BlockRule(p, fr, g, DIGITS_BODY, o);
    assert fr3.(locals := fr3.locals[..0]) == fr.(args := [Cell("n", Some(0))]);
  }

  lemma TenDigits()
    ensures Power10(10) == 10_000_000_000
  {
    assert Power10(5) == 100_000;
  }

  /** The program text: digits(n) is the number of decimal digits of n. */
  lemma DigitsProgram(n: Word, g: Globals) returns (d: Word)
    requires n >= 0
    ensures var r := Declarations(NO_NAMES, DIGITS, 0);
      r.Ok? && Returns(r.v, "digits", [Some(n)], g, Result(Some(d), g, [Cell("n", Some(0))]))
    ensures d > 0 && n < Power10(d) && (d > 1 ==> Power10(d - 1) <= n)
  {
    hide Declarations, F.DerivedFile, F.SpellFile, Returns, T.Stands, Runs, RunsAll;
    DigitsSpelled();
    DigitsDerived();
    ItselfStands(DIGITS);
    var f := F.Function("digits", ["n"], Block(DIGITS_BODY));
    F.FileTrip(NO_NAMES, [f], DIGITS, 0);
    OneFunction(f);
    d := DigitsBody([DIGITS_FUN], n, g);
    var fr := Frame(DIGITS_SCOPE, [Cell("n", Some(n))], [], None);
    assert M2Source.Bind(["n"], [Some(n)]) == [Cell("n", Some(n))];
    BodyRule([DIGITS_FUN], "digits", [Some(n)], g, DIGITS_FUN, Done(Returned, fr.(args := [Cell("n", Some(0))]), g, Some(d)));
  }
}
