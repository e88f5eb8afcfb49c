/**
  The grammar read backwards for statements and whole files: every statement the rules derive,
  and every list of declarations, is what its own spelling parses to. An `if` without `else`
  may not stand where a following `else` would be taken for its own.
 */
module M2StatementTrip {
  import opened Options
  import opened M2Word
  import opened M2Source
  import opened M2Grammar
  import opened M2RoundTrip
  import C = M2Codegen

  function SpellCondition(c: Expr): seq<Token> { [Sym("(")] + Spell(c) + [Sym(")")] }

  function SpellEnd(e: Expr): seq<Token> { Spell(e) + [Sym(";")] }

  function SpellStmt(s: Stmt): (ts: seq<Token>)
    ensures |ts| > 0
    decreases s, 1
  {
    match s
    case ExprS(e) => SpellEnd(e)
    case Block(body) => [Sym("{")] + SpellAll(body)
    case Decl(x, init) => [Name("int"), Name(x)] + if init.Some? then [Sym("=")] + SpellEnd(init.value) else [Sym(";")]
    case If(c, t, e) => [Name("if")] + SpellCondition(c) + SpellStmt(t) + SpellElse(e)
    case While(c, b) => [Name("while")] + SpellCondition(c) + SpellStmt(b)
    case DoWhile(b, c) => [Name("do")] + SpellStmt(b) + ([Name("while")] + (SpellCondition(c) + [Sym(";")]))
    case For(start, c, it, b) =>
      [Name("for")] + SpellStart(start) + (SpellEnd(c) + (Spell(it) + [Sym(")")])) + SpellStmt(b)
    case Return(e) => [Name("return")] + if e.Some? then SpellEnd(e.value) else [Sym(";")]
    case Break => [Name("break"), Sym(";")]
  }

  function SpellElse(e: Option<Stmt>): seq<Token>
    decreases e, 0
  {
    if e.Some? then [Name("else")] + SpellStmt(e.value) else []
  }

  function SpellStart(start: Option<Expr>): seq<Token> {
    [Sym("(")] + if start.Some? then SpellEnd(start.value) else [Sym(";")]
  }

  /** The statements of a block and its closing brace. */
  function SpellAll(ss: seq<Stmt>): (ts: seq<Token>)
    ensures |ts| > 0
    decreases ss, 0
  {
    if ss == [] then [Sym("}")] else SpellStmt(ss[0]) + SpellAll(ss[1..])
  }

  /** A statement whose last part is an `if` that a following `else` would join. */
  predicate TakesElse(s: Stmt) {
    match s
    case If(_, _, e) => e.None? || TakesElse(e.value)
    case While(_, b) => TakesElse(b)
    case For(_, _, _, b) => TakesElse(b)
    case _ => false
  }

  /** Statements behind whose last part the parser looks at one more token. */
  predicate LooksOn(s: Stmt) { s.If? || s.While? || s.For? }

  predicate DerivedOpt(env: C.Env, e: Option<Expr>) { e.Some? ==> Derived(env, e.value, LEVELS + 1) }

  /** An expression statement must not start with a variable called like a keyword. */
  predicate PlainStart(e: Expr) { forall w :: w in KEYWORDS ==> Spell(e)[0] != Name(w) }

  predicate DerivedStmt(env: C.Env, s: Stmt, inLoop: bool)
    decreases s, 1
  {
    match s
    case ExprS(e) => Derived(env, e, LEVELS + 1) && PlainStart(e)
    case Block(body) => DerivedAll(env, body, inLoop)
    case Decl(x, init) => x !in KEYWORDS && DerivedOpt(env.(locals := env.locals + [x]), init)
    case If(c, t, e) =>
      && Derived(env, c, LEVELS + 1) && DerivedStmt(env, t, inLoop) && !t.Decl?
      && (e.Some? ==> !TakesElse(t) && DerivedStmt(env, e.value, inLoop) && !e.value.Decl?)
    case While(c, b) => Derived(env, c, LEVELS + 1) && DerivedStmt(env, b, true) && !b.Decl?
    case DoWhile(b, c) => Derived(env, c, LEVELS + 1) && DerivedStmt(env, b, true) && !b.Decl?
    case For(start, c, it, b) =>
      && DerivedOpt(env, start) && Derived(env, c, LEVELS + 1) && Derived(env, it, LEVELS + 1)
      && DerivedStmt(env, b, true) && !b.Decl?
    case Return(e) => DerivedOpt(env, e)
    case Break => inLoop
  }

  predicate DerivedAll(env: C.Env, ss: seq<Stmt>, inLoop: bool)
    decreases ss, 0
  {
    ss != [] ==> DerivedStmt(env, ss[0], inLoop) && DerivedAll(C.After(env, ss[0]), ss[1..], inLoop)
  }

  /** What stands behind a statement leaves it as it is. */
  predicate Closes(ts: seq<Token>, j: nat, s: Stmt) {
    && (LooksOn(s) ==> j < |ts|)
    && (TakesElse(s) ==> !Is(ts, j, Name("else")))
  }

  // ----- first tokens -----

  lemma {:induction false} ExprStart(e: Expr)
    ensures var t := Spell(e)[0]; !t.Sym? || t.s in {"(", "-", "!", "~"}
    decreases e
  {
    match e
    case Bin(op, l, r) => ExprStart(l);
    case Assign(t, v) => ExprStart(t);
    case _ =>
  }

  lemma StmtStart(env: C.Env, s: Stmt, inLoop: bool)
    requires DerivedStmt(env, s, inLoop)
    ensures SpellStmt(s)[0] != Name("else") && SpellStmt(s)[0] != Sym("}") && SpellStmt(s)[0] != Sym(";")
    ensures SpellStmt(s)[0] == Name("int") <==> s.Decl?
  {
    hide Spell, SpellCondition, Derived, SpellAll;
    if s.ExprS? {
      ExprStart(s.e);
      assert "else" in KEYWORDS && "int" in KEYWORDS;
    }
  }

  lemma StandsStart(ts: seq<Token>, i: nat, part: seq<Token>)
    requires Stands(ts, i, part) && |part| > 0
    ensures i + |part| <= |ts| && Reads(ts[i], part[0]) && (Plain(part[0]) || Plain(ts[i]) ==> ts[i] == part[0])
  {
    hide Plain;
    PlainReads();
    assert Reads(ts[i + 0], part[0]);
  }

  lemma Separated()
    ensures forall k: nat :: k < LEVELS ==> Operator(k, Sym(")")) == None && Operator(k, Sym(";")) == None
  {
  }

  // ----- expressions in statements -----

  lemma FollowedTrip(env: C.Env, e: Expr, ts: seq<Token>, i: nat, t: Token)
    requires Derived(env, e, LEVELS + 1) && Stands(ts, i, Spell(e) + [t]) && t in {Sym(")"), Sym(";")}
    ensures Followed(env, ts, i, t) == Ok(e, i + |Spell(e)| + 1)
  {
    hide Spell, Derived, Operator, Expression, Stands, Reads;
    StandsSplit(ts, i, Spell(e), [t]);
    StandsInside(ts, i + |Spell(e)|, [t]);
    Separated();
    ExpressionTrip(env, e, ts, i);
  }

  lemma ConditionTrip(env: C.Env, c: Expr, ts: seq<Token>, i: nat)
    requires Derived(env, c, LEVELS + 1) && Stands(ts, i, SpellCondition(c))
    ensures Condition(env, ts, i) == Ok(c, i + |SpellCondition(c)|)
  {
    hide Spell, Derived, Followed, Stands, Reads;
    assert SpellCondition(c) == [Sym("(")] + (Spell(c) + [Sym(")")]);
    StandsSplit(ts, i, [Sym("(")], Spell(c) + [Sym(")")]);
    StandsInside(ts, i, [Sym("(")] + (Spell(c) + [Sym(")")]));
    FollowedTrip(env, c, ts, i + 1, Sym(")"));
  }

  /** An expression never starts with the semicolon that stands for a missing one. */
  lemma StartTrip(env: C.Env, start: Option<Expr>, ts: seq<Token>, i: nat)
    requires DerivedOpt(env, start) && Stands(ts, i, SpellStart(start))
    ensures ForStart(env, ts, i) == Ok(start, i + |SpellStart(start)|)
  {
    hide Spell, Derived, Followed, Stands, Reads;
    var rest := if start.Some? then SpellEnd(start.value) else [Sym(";")];
    StandsSplit(ts, i, [Sym("(")], rest);
    StandsInside(ts, i, [Sym("(")] + rest);
    if start.Some? {
      ExprStart(start.value);
      FollowedTrip(env, start.value, ts, i + 1, Sym(";"));
    }
  }

  lemma ControlTrip(env: C.Env, c: Expr, it: Expr, ts: seq<Token>, i: nat)
    requires Derived(env, c, LEVELS + 1) && Derived(env, it, LEVELS + 1)
    requires Stands(ts, i, SpellEnd(c) + (Spell(it) + [Sym(")")]))
    ensures ForControl(env, ts, i) == Ok((c, it), i + |SpellEnd(c) + (Spell(it) + [Sym(")")])|)
  {
    hide Spell, Derived, Followed, Stands, Reads;
    StandsSplit(ts, i, SpellEnd(c), Spell(it) + [Sym(")")]);
    FollowedTrip(env, c, ts, i, Sym(";"));
    FollowedTrip(env, it, ts, i + |SpellEnd(c)|, Sym(")"));
  }

  // ----- statements -----

  /** The spelling of a statement parses back to it. */
  lemma {:induction false} StmtTrip(env: C.Env, s: Stmt, inLoop: bool, ts: seq<Token>, i: nat)
    requires DerivedStmt(env, s, inLoop) && Stands(ts, i, SpellStmt(s)) && Closes(ts, i + |SpellStmt(s)|, s)
    ensures Statement(env, ts, i, inLoop) == Ok(s, i + |SpellStmt(s)|)
    decreases s, 2
  {
    hide Spell, Derived, Followed, Stands, Reads, SpellCondition, Statements, IfStatement, WhileStatement, DoStatement, ForStatement,
         Declaration, Closes, SpellAll;
    StandsStart(ts, i, SpellStmt(s));
    match s
    case ExprS(e) =>
      ExprStart(e);
      assert "int" in KEYWORDS && "if" in KEYWORDS && "do" in KEYWORDS && "while" in KEYWORDS && "for" in KEYWORDS
        && "return" in KEYWORDS && "break" in KEYWORDS;
      FollowedTrip(env, e, ts, i, Sym(";"));
    case Block(body) =>
      StandsSplit(ts, i, [Sym("{")], SpellAll(body));
      AllTrip(env, body, inLoop, ts, i + 1);
    case Decl(x, init) => DeclTrip(env, x, init, ts, i);
    case If(c, t, e) => IfTrip(env, s, inLoop, ts, i);
    case While(c, b) => WhileTrip(env, s, ts, i);
    case DoWhile(b, c) => DoTrip(env, s, ts, i);
    case For(start, c, it, b) => ForTrip(env, s, ts, i);
    case Return(e) => ReturnTrip(env, e, inLoop, ts, i);
    case Break =>
      assert SpellStmt(s) == [Name("break")] + [Sym(";")];
      StandsSplit(ts, i, [Name("break")], [Sym(";")]);
  }

  lemma ReturnTrip(env: C.Env, e: Option<Expr>, inLoop: bool, ts: seq<Token>, i: nat)
    requires DerivedOpt(env, e) && Stands(ts, i, SpellStmt(Return(e)))
    ensures Statement(env, ts, i, inLoop) == Ok(Return(e), i + |SpellStmt(Return(e))|)
  {
    hide Spell, Derived, Followed, Stands, Reads;
    var rest := if e.Some? then SpellEnd(e.value) else [Sym(";")];
    StandsSplit(ts, i, [Name("return")], rest);
    StandsInside(ts, i, [Name("return")] + rest);
    if e.Some? {
      ExprStart(e.value);
      FollowedTrip(env, e.value, ts, i + 1, Sym(";"));
    }
  }

  lemma DeclTrip(env: C.Env, x: string, init: Option<Expr>, ts: seq<Token>, i: nat)
    requires DerivedStmt(env, Decl(x, init), false) && Stands(ts, i, SpellStmt(Decl(x, init)))
    ensures Declaration(env, ts, i + 1) == Ok(Decl(x, init), i + |SpellStmt(Decl(x, init))|)
  {
    hide Spell, Derived, Followed, Stands, Reads;
    var rest := if init.Some? then [Sym("=")] + SpellEnd(init.value) else [Sym(";")];
    StandsSplit(ts, i, [Name("int"), Name(x)], rest);
    StandsInside(ts, i, [Name("int"), Name(x)] + rest);
    assert [Name("int"), Name(x)] == [Name("int")] + [Name(x)];
    StandsSplit(ts, i, [Name("int")], [Name(x)]);
    if init.Some? {
      StandsSplit(ts, i + 2, [Sym("=")], SpellEnd(init.value));
      FollowedTrip(env.(locals := env.locals + [x]), init.value, ts, i + 3, Sym(";"));
    }
  }

  /** A branch or a loop body, when some token that is no `else` of its own comes next. */
  lemma {:induction false} BodyTrip(env: C.Env, s: Stmt, inLoop: bool, ts: seq<Token>, i: nat)
    requires DerivedStmt(env, s, inLoop) && !s.Decl? && Stands(ts, i, SpellStmt(s))
    requires i + |SpellStmt(s)| < |ts| && (TakesElse(s) ==> ts[i + |SpellStmt(s)|] != Name("else"))
    ensures Body(env, ts, i, inLoop) == Ok(s, i + |SpellStmt(s)|)
    decreases s, 3
  {
    hide Statement, SpellStmt, Stands, Reads, DerivedStmt, TakesElse;
    StmtStart(env, s, inLoop);
    StandsStart(ts, i, SpellStmt(s));
    StmtTrip(env, s, inLoop, ts, i);
  }

  lemma {:induction false} AllTrip(env: C.Env, ss: seq<Stmt>, inLoop: bool, ts: seq<Token>, i: nat)
    requires DerivedAll(env, ss, inLoop) && Stands(ts, i, SpellAll(ss))
    ensures Statements(env, ts, i, inLoop) == Ok(ss, i + |SpellAll(ss)|)
    decreases ss, 1
  {
    hide Stands, Reads, Statement, SpellStmt, DerivedStmt, C.After;
    StandsStart(ts, i, SpellAll(ss));
    if ss != [] {
      var first, rest := SpellStmt(ss[0]), SpellAll(ss[1..]);
      StandsSplit(ts, i, first, rest);
      AllStart(C.After(env, ss[0]), ss[1..], inLoop);
      StmtStart(env, ss[0], inLoop);
      assert Closes(ts, i + |first|, ss[0]);
      StmtTrip(env, ss[0], inLoop, ts, i);
      AllTrip(C.After(env, ss[0]), ss[1..], inLoop, ts, i + |first|);
      assert ss == [ss[0]] + ss[1..];
    }
  }

  lemma AllStart(env: C.Env, ss: seq<Stmt>, inLoop: bool)
    requires DerivedAll(env, ss, inLoop)
    ensures SpellAll(ss)[0] != Name("else")
  {
    hide SpellStmt, DerivedStmt;
    if ss != [] { StmtStart(env, ss[0], inLoop); }
  }

  lemma {:induction false} IfTrip(env: C.Env, s: Stmt, inLoop: bool, ts: seq<Token>, i: nat)
    requires s.If? && DerivedStmt(env, s, inLoop) && Stands(ts, i, SpellStmt(s)) && Closes(ts, i + |SpellStmt(s)|, s)
    ensures IfStatement(env, ts, i + 1, inLoop) == Ok(s, i + |SpellStmt(s)|) && ts[i] == Name("if")
    decreases s, 1
  {
    hide Stands, Reads, Condition, Body, SpellCondition, SpellStmt, Derived, DerivedStmt, TakesElse, Closes, ElseBranch, IfStatement;
    var head, yes, no := [Name("if")] + SpellCondition(s.cond), SpellStmt(s.thn), SpellElse(s.els);
    var j, k := i + |head|, i + |head| + |yes|;
    IfParts(env, s, inLoop, ts, k + |no|);
    StandsSplit(ts, i, head + yes, no);
    StandsSplit(ts, i, head, yes);
    StandsSplit(ts, i, [Name("if")], SpellCondition(s.cond));
    ConditionTrip(env, s.cond, ts, i + 1);
    BodyTrip(env, s.thn, inLoop, ts, j);
    ElseTrip(env, s, inLoop, ts, k);
    IfReads(env, s, inLoop, ts, i + 1);
  }

  lemma IfReads(env: C.Env, s: Stmt, inLoop: bool, ts: seq<Token>, i: nat)
    requires s.If? && Condition(env, ts, i).Ok? && Condition(env, ts, i).v == s.cond
    requires var r := Body(env, ts, Condition(env, ts, i).at, inLoop);
      r.Ok? && r.v == s.thn && ElseBranch(env, ts, r.at, inLoop).Ok? && ElseBranch(env, ts, r.at, inLoop).v == s.els
    ensures IfStatement(env, ts, i, inLoop) == Ok(s, ElseBranch(env, ts, Body(env, ts, Condition(env, ts, i).at, inLoop).at, inLoop).at)
  {
    hide Condition, Body, ElseBranch;
  }

  lemma IfParts(env: C.Env, s: Stmt, inLoop: bool, ts: seq<Token>, j: nat)
    requires s.If? && DerivedStmt(env, s, inLoop)
    ensures SpellStmt(s) == [Name("if")] + SpellCondition(s.cond) + SpellStmt(s.thn) + SpellElse(s.els)
    ensures Derived(env, s.cond, LEVELS + 1) && DerivedStmt(env, s.thn, inLoop) && !s.thn.Decl?
    ensures s.els.Some? ==> !TakesElse(s.thn)
    ensures Closes(ts, j, s) ==> j < |ts| && (s.els.None? ==> ts[j] != Name("else"))
  {
    hide SpellCondition, Derived;
  }

  lemma {:induction false} ElseTrip(env: C.Env, s: Stmt, inLoop: bool, ts: seq<Token>, k: nat)
    requires s.If? && DerivedStmt(env, s, inLoop) && k < |ts|
    requires Stands(ts, k, SpellElse(s.els)) && Closes(ts, k + |SpellElse(s.els)|, s)
    ensures ElseBranch(env, ts, k, inLoop) == Ok(s.els, k + |SpellElse(s.els)|)
    decreases s, 0
  {
    hide Stands, Reads, Body, SpellStmt, Derived;
    if s.els.Some? {
      StandsSplit(ts, k, [Name("else")], SpellStmt(s.els.value));
      BodyTrip(env, s.els.value, inLoop, ts, k + 1);
    }
  }

  lemma {:induction false} WhileTrip(env: C.Env, s: Stmt, ts: seq<Token>, i: nat)
    requires s.While? && DerivedStmt(env, s, true) && Stands(ts, i, SpellStmt(s)) && Closes(ts, i + |SpellStmt(s)|, s)
    ensures WhileStatement(env, ts, i + 1) == Ok(s, i + |SpellStmt(s)|)
    decreases s, 0
  {
    hide Stands, Reads, Condition, Body, SpellCondition, Derived;
    var head := [Name("while")] + SpellCondition(s.cond);
    StandsSplit(ts, i, head, SpellStmt(s.loop));
    StandsSplit(ts, i, [Name("while")], SpellCondition(s.cond));
    ConditionTrip(env, s.cond, ts, i + 1);
    BodyTrip(env, s.loop, true, ts, i + |head|);
  }

  lemma {:induction false} DoTrip(env: C.Env, s: Stmt, ts: seq<Token>, i: nat)
    requires s.DoWhile? && DerivedStmt(env, s, true) && Stands(ts, i, SpellStmt(s))
    ensures DoStatement(env, ts, i + 1) == Ok(s, i + |SpellStmt(s)|)
    decreases s, 0
  {
    hide Stands, Reads, Condition, Body, SpellCondition, Derived;
    var body, test := SpellStmt(s.loop), SpellCondition(s.cond) + [Sym(";")];
    var j := i + 1 + |body|;
    StandsSplit(ts, i, [Name("do")] + body, [Name("while")] + test);
    StandsSplit(ts, i, [Name("do")], body);
    StandsInside(ts, j, [Name("while")] + test);
    StandsSplit(ts, j, [Name("while")], test);
    StandsSplit(ts, j + 1, SpellCondition(s.cond), [Sym(";")]);
    BodyTrip(env, s.loop, true, ts, i + 1);
    ConditionTrip(env, s.cond, ts, j + 1);
    assert DoTest(env, ts, j) == Ok(s.cond, j + 1 + |test|);
  }

  lemma {:induction false} ForTrip(env: C.Env, s: Stmt, ts: seq<Token>, i: nat)
    requires s.For? && DerivedStmt(env, s, true) && Stands(ts, i, SpellStmt(s)) && Closes(ts, i + |SpellStmt(s)|, s)
    ensures ForStatement(env, ts, i + 1) == Ok(s, i + |SpellStmt(s)|)
    decreases s, 0
  {
    hide Stands, Reads, ForStart, ForControl, Body, SpellStart, SpellEnd, Derived;
    var start, control := [Name("for")] + SpellStart(s.start), SpellEnd(s.cond) + (Spell(s.iter) + [Sym(")")]);
    StandsSplit(ts, i, start + control, SpellStmt(s.loop));
    StandsSplit(ts, i, start, control);
    StandsSplit(ts, i, [Name("for")], SpellStart(s.start));
    StartTrip(env, s.start, ts, i + 1);
    ControlTrip(env, s.cond, s.iter, ts, i + |start|);
    BodyTrip(env, s.loop, true, ts, i + |start| + |control|);
  }

  /** Without its condition the rule fails: an `else` meant for the outer `if` is read as the inner one's. */
  lemma DanglingElse(env: C.Env, outer: Expr, inner: Expr, yes: Stmt, no: Stmt, inLoop: bool, ts: seq<Token>, i: nat)
    requires DerivedStmt(env, If(outer, If(inner, yes, Some(no)), None), inLoop)
    requires var s := If(outer, If(inner, yes, None), Some(no)); var j := i + |SpellStmt(s)|;
      Stands(ts, i, SpellStmt(s)) && j < |ts| && ts[j] != Name("else")
    ensures var s := If(outer, If(inner, yes, None), Some(no));
      Statement(env, ts, i, inLoop) == Ok(If(outer, If(inner, yes, Some(no)), None), i + |SpellStmt(s)|)
  {
    hide Spell, SpellCondition, Stands, Reads, DerivedStmt, Statement;
    var meant, read := If(outer, If(inner, yes, None), Some(no)), If(outer, If(inner, yes, Some(no)), None);
    var a, b := [Name("if")] + SpellCondition(outer), [Name("if")] + SpellCondition(inner) + SpellStmt(yes);
    var c := [Name("else")] + SpellStmt(no);
    assert SpellStmt(If(inner, yes, None)) == b + [] == b;
    assert SpellStmt(meant) == a + b + c;
    assert SpellStmt(read) == a + (b + c) + [] == a + (b + c);
    assert a + b + c == a + (b + c);
    StmtTrip(env, read, inLoop, ts, i);
  }

  // ----- files -----

  datatype Item =
    | Constant(name: string, n: Word)
    | Global(name: string)
    | Prototype(name: string, params: seq<string>)
    | Function(name: string, params: seq<string>, body: Stmt)

  function SpellParams(ps: seq<string>): (ts: seq<Token>)
    ensures |ts| > 0
  {
    if ps == [] then [Sym(")")]
    else [Name("int"), Name(ps[0])] + (if |ps| > 1 then [Sym(",")] else []) + SpellParams(ps[1..])
  }

  function SpellItem(d: Item): (ts: seq<Token>)
    ensures |ts| > 0 && ts[0] in {Name("CONSTANT"), Name("int")}
  {
    match d
    case Constant(x, n) => [Name("CONSTANT"), Name(x), Num(n)]
    case Global(x) => [Name("int"), Name(x), Sym(";")]
    case Prototype(x, ps) => [Name("int"), Name(x), Sym("(")] + SpellParams(ps) + [Sym(";")]
    case Function(x, ps, body) => [Name("int"), Name(x), Sym("(")] + SpellParams(ps) + SpellStmt(body)
  }

  function SpellFile(ds: seq<Item>): seq<Token> {
    if ds == [] then [] else SpellItem(ds[0]) + SpellFile(ds[1..])
  }

  /** The names known behind a declaration; a function is also known as an address. */
  function Known(sc: Scope, d: Item): Scope {
    match d
    case Constant(x, n) => sc.(consts := sc.consts[x := n])
    case Global(x) => sc.(globs := sc.globs + {x})
    case Prototype(x, _) => sc.(globs := sc.globs + {x}, funs := sc.funs + {x})
    case Function(x, _, _) => sc.(globs := sc.globs + {x}, funs := sc.funs + {x})
  }

  function Functions(sc: Scope, ds: seq<Item>): Program
    decreases ds
  {
    if ds == [] then []
    else
      var sc1 := Known(sc, ds[0]);
      (if ds[0].Function? then [Fun(ds[0].name, ds[0].params, ds[0].body, sc1)] else []) + Functions(sc1, ds[1..])
  }

  predicate NoKeywords(ps: seq<string>) { forall k :: 0 <= k < |ps| ==> ps[k] !in KEYWORDS }

  /** The last function may not end in a statement that waits for one more token. */
  predicate DerivedFile(sc: Scope, ds: seq<Item>)
    decreases ds
  {
    ds != [] ==>
      && (ds[0].Prototype? || ds[0].Function? ==> NoKeywords(ds[0].params))
      && (ds[0].Function? ==>
          && DerivedStmt(C.Env(ds[0].name, Known(sc, ds[0]), ds[0].params, []), ds[0].body, false)
          && !ds[0].body.Decl? && (LooksOn(ds[0].body) ==> ds[1..] != []))
      && DerivedFile(Known(sc, ds[0]), ds[1..])
  }

  lemma {:induction false} ParamsTrip(ps: seq<string>, ts: seq<Token>, i: nat)
    requires NoKeywords(ps) && Stands(ts, i, SpellParams(ps))
    ensures Parameters(ts, i) == Ok(ps, i + |SpellParams(ps)|)
    decreases ps
  {
    hide Stands, Reads;
    StandsStart(ts, i, SpellParams(ps));
    if ps != [] {
      var comma, rest := if |ps| > 1 then [Sym(",")] else [], SpellParams(ps[1..]);
      StandsSplit(ts, i, [Name("int"), Name(ps[0])] + comma, rest);
      StandsSplit(ts, i, [Name("int"), Name(ps[0])], comma);
      assert [Name("int"), Name(ps[0])] == [Name("int")] + [Name(ps[0])];
      StandsSplit(ts, i, [Name("int")], [Name(ps[0])]);
      ParamsTrip(ps[1..], ts, i + 2 + |comma|);
      assert |ps| == 1 ==> rest == [Sym(")")];
      assert ps == [ps[0]] + ps[1..];
    }
  }

  /** The tokens from i on are these, each operator in any of its spellings. */
  predicate Ending(ts: seq<Token>, i: nat, part: seq<Token>) { Stands(ts, i, part) && i + |part| == |ts| }

  lemma {:induction false} FileTrip(sc: Scope, ds: seq<Item>, ts: seq<Token>, i: nat)
    requires DerivedFile(sc, ds) && Ending(ts, i, SpellFile(ds))
    ensures Declarations(sc, ts, i) == Ok(Functions(sc, ds), |ts|)
    decreases ds
  {
    hide DerivedStmt, SpellStmt, SpellParams, Statement, Stands, Reads, Parameters;
    if ds != [] {
      var d, first, sc1 := ds[0], SpellItem(ds[0]), Known(sc, ds[0]);
      StandsSplit(ts, i, first, SpellFile(ds[1..]));
      FileTrip(sc1, ds[1..], ts, i + |first|);
      ItemTrip(sc, d, ds[1..], ts, i);
    }
  }

  lemma ItemTrip(sc: Scope, d: Item, ds: seq<Item>, ts: seq<Token>, i: nat)
    requires DerivedFile(sc, [d] + ds) && Stands(ts, i, SpellItem(d))
    requires Ending(ts, i + |SpellItem(d)|, SpellFile(ds))
    requires Declarations(Known(sc, d), ts, i + |SpellItem(d)|) == Ok(Functions(Known(sc, d), ds), |ts|)
    ensures Declarations(sc, ts, i) == Ok(Functions(sc, [d] + ds), |ts|)
  {
    hide DerivedStmt, SpellStmt, SpellParams, Stands, Reads, Parameters, Declarations, Functions, Known;
    assert ([d] + ds)[1..] == ds;
    FunctionsStep(sc, d, ds);
    match d
    case Constant(x, n) =>
      Three(ts, i, Name("CONSTANT"), Name(x), Num(n));
      DeclareConstant(sc, ts, i);
    case Global(x) =>
      Three(ts, i, Name("int"), Name(x), Sym(";"));
      DeclareGlobal(sc, ts, i);
    case Prototype(x, ps) =>
      var head := [Name("int"), Name(x), Sym("(")];
      StandsSplit(ts, i, head + SpellParams(ps), [Sym(";")]);
      StandsInside(ts, i, SpellItem(d));
      StandsSplit(ts, i, head, SpellParams(ps));
      Three(ts, i, Name("int"), Name(x), Sym("("));
      ParamsTrip(ps, ts, i + 3);
      DeclarePrototype(sc, ts, i);
    case Function(x, ps, body) =>
      FunctionTrip(sc, d, ds, ts, i);
  }

  lemma FunctionsStep(sc: Scope, d: Item, ds: seq<Item>)
    ensures var sc1 := Known(sc, d);
      Functions(sc, [d] + ds) == (if d.Function? then [Fun(d.name, d.params, d.body, sc1)] else []) + Functions(sc1, ds)
    ensures !d.Function? ==> Functions(sc, [d] + ds) == Functions(Known(sc, d), ds)
  {
    hide Known;
    assert ([d] + ds)[1..] == ds;
  }

  lemma FunctionTrip(sc: Scope, d: Item, ds: seq<Item>, ts: seq<Token>, i: nat)
    requires d.Function? && DerivedFile(sc, [d] + ds) && Stands(ts, i, SpellItem(d))
    requires Ending(ts, i + |SpellItem(d)|, SpellFile(ds))
    ensures Declarations(sc, ts, i)
      == Prepend(Fun(d.name, d.params, d.body, Known(sc, d)), Declarations(Known(sc, d), ts, i + |SpellItem(d)|))
  {
    hide DerivedStmt, SpellStmt, SpellParams, Stands, Reads, Parameters, Declarations, Known, Statement, SpellFile;
    assert ([d] + ds)[1..] == ds;
    var x, ps, body := d.name, d.params, d.body;
    var head := [Name("int"), Name(x), Sym("(")];
    var j := i + 3 + |SpellParams(ps)|;
    StandsSplit(ts, i, head + SpellParams(ps), SpellStmt(body));
    StandsSplit(ts, i, head, SpellParams(ps));
    Three(ts, i, Name("int"), Name(x), Sym("("));
    ParamsTrip(ps, ts, i + 3);
    StmtStart(C.Env(x, Known(sc, d), ps, []), body, false);
    StandsStart(ts, j, SpellStmt(body));
    FileStart(ts, j + |SpellStmt(body)|, ds);
    StmtTrip(C.Env(x, Known(sc, d), ps, []), body, false, ts, j);
    KnownFunction(sc, x, ps, body);
    DeclareFunction(sc, ts, i);
  }

  lemma KnownFunction(sc: Scope, x: string, ps: seq<string>, body: Stmt)
    ensures Known(sc, Item.Function(x, ps, body)) == Known(sc, Item.Function(x, ps, Break))
  {
  }

  lemma Three(ts: seq<Token>, i: nat, a: Token, b: Token, c: Token)
    requires Stands(ts, i, [a, b, c]) && Plain(a) && Plain(b) && Plain(c)
    ensures i + 3 <= |ts| && ts[i] == a && ts[i + 1] == b && ts[i + 2] == c
  {
    assert Reads(ts[i + 0], [a, b, c][0]) && Reads(ts[i + 1], [a, b, c][1]) && Reads(ts[i + 2], [a, b, c][2]);
    PlainReads();
  }

  /** Behind a function stands a declaration or nothing, never an `else`. */
  lemma FileStart(ts: seq<Token>, j: nat, ds: seq<Item>)
    requires Ending(ts, j, SpellFile(ds))
    ensures !Is(ts, j, Name("else"))
    ensures ds != [] ==> j < |ts|
  {
    hide SpellItem;
    if ds != [] { StandsSplit(ts, j, SpellItem(ds[0]), SpellFile(ds[1..])); }
  }

  lemma DeclareConstant(sc: Scope, ts: seq<Token>, i: nat)
    requires i + 3 <= |ts| && ts[i] == Name("CONSTANT") && ts[i + 1].Name? && ts[i + 2].Num?
    ensures Declarations(sc, ts, i) == Declarations(Known(sc, Item.Constant(ts[i + 1].s, ts[i + 2].n)), ts, i + 3)
  {
    hide Parameters, Statement;
  }

  lemma DeclareGlobal(sc: Scope, ts: seq<Token>, i: nat)
    requires i + 3 <= |ts| && ts[i] == Name("int") && ts[i + 1].Name? && ts[i + 2] == Sym(";")
    ensures Declarations(sc, ts, i) == Declarations(Known(sc, Item.Global(ts[i + 1].s)), ts, i + 3)
  {
    hide Parameters, Statement;
  }

  lemma DeclarePrototype(sc: Scope, ts: seq<Token>, i: nat)
    requires i + 3 <= |ts| && ts[i] == Name("int") && ts[i + 1].Name? && ts[i + 2] == Sym("(")
    requires Parameters(ts, i + 3).Ok? && Is(ts, Parameters(ts, i + 3).at, Sym(";"))
    ensures var ps := Parameters(ts, i + 3);
      Declarations(sc, ts, i) == Declarations(Known(sc, Item.Prototype(ts[i + 1].s, ps.v)), ts, ps.at + 1)
  {
    hide Parameters, Statement;
    assert sc.(globs := sc.globs + {ts[i + 1].s}).(funs := sc.funs + {ts[i + 1].s}) == Known(sc, Item.Prototype(ts[i + 1].s, []));
  }

  lemma DeclareFunction(sc: Scope, ts: seq<Token>, i: nat)
    requires i + 3 <= |ts| && ts[i] == Name("int") && ts[i + 1].Name? && ts[i + 2] == Sym("(")
    requires Parameters(ts, i + 3).Ok?
    requires var j := Parameters(ts, i + 3).at; j < |ts| && ts[j] != Sym(";") && ts[j] != Name("int")
    ensures var x, ps := ts[i + 1].s, Parameters(ts, i + 3);
      var sc1 := Known(sc, Item.Function(x, ps.v, Break));
      var r := Statement(C.Env(x, sc1, ps.v, []), ts, ps.at, false);
      r.Ok? ==> Declarations(sc, ts, i) == Prepend(Fun(x, ps.v, r.v, sc1), Declarations(sc1, ts, r.at))
  {
    hide Parameters, Statement;
  }
}
