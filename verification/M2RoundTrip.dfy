/**
  The grammar read backwards: every expression built by the rules of the three flat,
  left-associative levels is what its own spelling parses to.
 */
module M2RoundTrip {
  import opened Options
  import opened M2Word
  import opened M2Source
  import opened M2Grammar
  import C = M2Codegen

  function LevelOf(op: BinOp): (k: nat)
    ensures k < LEVELS
  {
    match op
    case Add | Sub | Mul | Div | Mod | Shl | Shr => 0
    case Lt | Le | Ge | Gt | Eq | Ne => 1
    case And | Or | Xor => 2
  }

  /** All tokens that stand for an operator. */
  predicate Spells(op: BinOp, t: Token) {
    match op
    case Add => t == Sym("+") case Sub => t == Sym("-") case Mul => t == Sym("*") case Div => t == Sym("/") case Mod => t == Sym("%")
    case Shl => t == Sym("<<") case Shr => t == Sym(">>")
    case Lt => t == Sym("<") case Le => t == Sym("<=") case Ge => t == Sym(">=") case Gt => t == Sym(">")
    case Eq => t == Sym("==") case Ne => t == Sym("!=")
    case And => t == Sym("&") || t == Sym("&&") case Or => t == Sym("|") || t == Sym("||") case Xor => t == Sym("^")
  }

  /** A level takes exactly the spellings of its operators. */
  lemma OperatorSpells(k: nat, op: BinOp, t: Token)
    requires k < LEVELS
    ensures Operator(k, t) == Some(op) <==> Spells(op, t) && k == LevelOf(op)
  {
  }

  /** A token may be replaced by another spelling of the same operator. */
  predicate Reads(t: Token, u: Token) {
    t == u || (Spells(And, t) && Spells(And, u)) || (Spells(Or, t) && Spells(Or, u))
  }

  /** Tokens that have no other spelling. */
  predicate Plain(t: Token) { t !in {Sym("&"), Sym("&&"), Sym("|"), Sym("||")} }

  lemma PlainReads()
    ensures forall t, u :: Reads(t, u) && (Plain(u) || Plain(t)) ==> t == u
  {
  }

  lemma ReadsSpells(t: Token, u: Token, op: BinOp)
    requires Spells(op, u)
    ensures Reads(t, u) <==> Spells(op, t)
  {
  }

  /** One token for an operator. */
  function Spelling(op: BinOp): (t: Token)
    ensures Spells(op, t)
  {
    match op
    case Add => Sym("+") case Sub => Sym("-") case Mul => Sym("*") case Div => Sym("/") case Mod => Sym("%")
    case Shl => Sym("<<") case Shr => Sym(">>")
    case Lt => Sym("<") case Le => Sym("<=") case Ge => Sym(">=") case Gt => Sym(">") case Eq => Sym("==") case Ne => Sym("!=")
    case And => Sym("&") case Or => Sym("|") case Xor => Sym("^")
  }

  /** Expressions the rules derive: rank 0 is a primary, rank k + 1 a chain of level k whose
      right operands have rank k, and rank LEVELS + 1 may also be an assignment. */
  predicate Derived(env: C.Env, e: Expr, rank: nat) {
    match e
    case Const(_) => true
    case Paren(e1) => Derived(env, e1, LEVELS + 1)
    case Var(x) => Usable(env, x)
    case LVal(_) => false
    case Un(_, e1) => Derived(env, e1, 0)
    case Call(f, args) =>
      C.Locate(env, f).FunctionName? && forall i :: 0 <= i < |args| ==> Derived(env, args[i], LEVELS + 1)
    case Bin(op, l, r) => LevelOf(op) < rank && Derived(env, l, LevelOf(op) + 1) && Derived(env, r, LevelOf(op))
    case Assign(t, v) => rank > LEVELS && t.LVal? && Usable(env, t.x) && Derived(env, v, LEVELS + 1)
  }

  function UnaryToken(op: UnOp): Token {
    match op
    case Neg => Sym("-")
    case Not => Sym("!")
    case Compl => Sym("~")
  }

  function Spell(e: Expr): (ts: seq<Token>)
    ensures |ts| > 0
    decreases e, 1
  {
    match e
    case Const(n) => [Num(n)]
    case Paren(e1) => [Sym("(")] + Spell(e1) + [Sym(")")]
    case Var(x) => [Name(x)]
    case LVal(x) => [Name(x)]
    case Un(op, e1) => [UnaryToken(op)] + Spell(e1)
    case Call(f, args) => [Name(f), Sym("(")] + (if args == [] then [Sym(")")] else SpellArgs(args))
    case Bin(op, l, r) => Spell(l) + [Spelling(op)] + Spell(r)
    case Assign(t, v) => Spell(t) + [Sym("=")] + Spell(v)
  }

  function SpellArgs(es: seq<Expr>): (ts: seq<Token>)
    requires es != []
    ensures |ts| > 0
    decreases es, 0
  {
    Spell(es[0]) + (if |es| == 1 then [Sym(")")] else [Sym(",")] + SpellArgs(es[1..]))
  }

  /** The tokens `part` stand at position i, each operator in any of its spellings. */
  predicate Stands(ts: seq<Token>, i: nat, part: seq<Token>) {
    i + |part| <= |ts| && forall k :: 0 <= k < |part| ==> Reads(ts[i + k], part[k])
  }

  lemma StandsSplit(ts: seq<Token>, i: nat, a: seq<Token>, b: seq<Token>)
    requires Stands(ts, i, a + b)
    ensures Stands(ts, i, a) && Stands(ts, i + |a|, b)
    ensures |a| > 0 ==> Reads(ts[i], a[0]) && (Plain(a[0]) || Plain(ts[i]) ==> ts[i] == a[0])
    ensures |b| > 0 ==> Reads(ts[i + |a|], b[0]) && (Plain(b[0]) || Plain(ts[i + |a|]) ==> ts[i + |a|] == b[0])
  {
    hide Reads, Plain;
    PlainReads();
    forall k | 0 <= k < |a| ensures Reads(ts[i + k], a[k]) { assert (a + b)[k] == a[k]; }
    forall k | 0 <= k < |b| ensures Reads(ts[i + |a| + k], b[k]) {
      var x := |a| + k;
      assert (a + b)[x] == b[k] && Reads(ts[i + x], (a + b)[x]);
    }
    if |a| > 0 { assert Reads(ts[i + 0], a[0]); }
    if |b| > 0 { assert Reads(ts[i + |a| + 0], b[0]); }
  }

  /** What may follow an expression of a rank without being taken for part of it. */
  predicate Ends(ts: seq<Token>, j: nat, rank: nat) {
    && j < |ts| && ts[j] !in {Sym("("), Sym("["), Sym("=")}
    && forall k: nat :: k < rank && k < LEVELS ==> Operator(k, ts[j]) == None
  }

  lemma EndsLower(ts: seq<Token>, j: nat, rank: nat, lower: nat)
    requires Ends(ts, j, rank) && lower <= rank
    ensures Ends(ts, j, lower)
  {
  }

  lemma {:induction false} PrimaryTrip(env: C.Env, e: Expr, ts: seq<Token>, i: nat)
    requires Derived(env, e, 0) && Stands(ts, i, Spell(e)) && Ends(ts, i + |Spell(e)|, 0)
    ensures Primary(env, ts, i) == Ok(e, i + |Spell(e)|)
    ensures Operand(0, env, ts, i) == Ok(e, i + |Spell(e)|)
    decreases e, 0
  {
    hide C.Locate, Derived, Operator;
    assert Reads(ts[i + 0], Spell(e)[0]);
    match e
    case Const(n) =>
    case Var(x) => assert Usable(env, x) by { VarUsable(env, x); }
    case Un(op, e1) =>
      UnDerived(env, op, e1);
      StandsSplit(ts, i, [UnaryToken(op)], Spell(e1));
      PrimaryTrip(env, e1, ts, i + 1);
    case Paren(e1) => ParenTrip(env, e1, ts, i);
    case Call(f, args) => CallTrip(env, f, args, ts, i);
    case _ => NotPrimary(env, e);
  }

  lemma VarUsable(env: C.Env, x: string)
    requires Derived(env, Var(x), 0)
    ensures Usable(env, x)
  {
  }

  lemma UnDerived(env: C.Env, op: UnOp, e1: Expr)
    requires Derived(env, Un(op, e1), 0)
    ensures Derived(env, e1, 0)
  {
  }

  lemma NotPrimary(env: C.Env, e: Expr)
    requires e.LVal? || e.Bin? || e.Assign?
    ensures !Derived(env, e, 0)
  {
  }

  lemma {:induction false} ParenTrip(env: C.Env, e1: Expr, ts: seq<Token>, i: nat)
    requires Derived(env, Paren(e1), 0) && Stands(ts, i, Spell(Paren(e1)))
    ensures Primary(env, ts, i) == Ok(Paren(e1), i + |Spell(Paren(e1))|)
    decreases e1, 21
  {
    hide C.Locate;
    var k := i + 1 + |Spell(e1)|;
    StandsSplit(ts, i, [Sym("(")] + Spell(e1), [Sym(")")]);
    StandsSplit(ts, i, [Sym("(")], Spell(e1));
    assert ts[k] == Sym(")");
    assert Starts("(", '(') && !Starts("(", '-') && !Starts("(", '!') && !Starts("(", '~');
    ExpressionTrip(env, e1, ts, i + 1);
  }

  lemma {:induction false} CallTrip(env: C.Env, f: string, args: seq<Expr>, ts: seq<Token>, i: nat)
    requires Derived(env, Call(f, args), 0) && Stands(ts, i, Spell(Call(f, args)))
    ensures Primary(env, ts, i) == Ok(Call(f, args), i + |Spell(Call(f, args))|)
    decreases args, 21
  {
    hide C.Locate, Reads, Stands;
    var rest := if args == [] then [Sym(")")] else SpellArgs(args);
    StandsSplit(ts, i, [Name(f), Sym("(")], rest);
    StandsInside(ts, i + 2, rest);
    assert [Name(f)] + [Sym("(")] == [Name(f), Sym("(")];
    StandsSplit(ts, i, [Name(f)], [Sym("(")]);
    if args != [] {
      ArgsTrip(env, args, ts, i + 2);
      assert ts[i + 2] != Sym(")") by { StandsSplit(ts, i + 2, Spell(args[0]), rest[|Spell(args[0])|..]); SpellStart(args[0]); }
    }
  }

  /** No expression starts with a closing parenthesis. */
  lemma {:induction false} SpellStart(e: Expr)
    ensures Spell(e)[0] != Sym(")")
    decreases e
  {
    match e
    case Bin(op, l, r) => SpellStart(l);
    case Assign(t, v) => SpellStart(t);
    case _ =>
  }

  lemma {:induction false} ArgsTrip(env: C.Env, es: seq<Expr>, ts: seq<Token>, i: nat)
    requires es != [] && Stands(ts, i, SpellArgs(es))
    requires forall k :: 0 <= k < |es| ==> Derived(env, es[k], LEVELS + 1)
    ensures ArgumentsFrom(env, ts, i) == Ok(es, i + |SpellArgs(es)|)
    decreases es, 20
  {
    hide C.Locate, Derived, Expression, Spell, Operator, Reads, Stands;
    var first := Spell(es[0]);
    var rest := if |es| == 1 then [Sym(")")] else [Sym(",")] + SpellArgs(es[1..]);
    var j := i + |first|;
    StandsSplit(ts, i, first, rest);
    StandsInside(ts, j, rest);
    assert Ends(ts, j, LEVELS + 1) by { Separators(); }
    ExpressionTrip(env, es[0], ts, i);
    assert ArgumentsFrom(env, ts, i) == Prepend(es[0], MoreArguments(env, ts, j));
    if |es| == 1 {
      assert [es[0]] + [] == es;
    } else {
      StandsSplit(ts, j, [Sym(",")], SpellArgs(es[1..]));
      ArgsTrip(env, es[1..], ts, j + 1);
      assert es == [es[0]] + es[1..];
    }
  }

  lemma Separators()
    ensures forall k: nat :: k < LEVELS ==> Operator(k, Sym(")")) == None && Operator(k, Sym(",")) == None && Operator(k, Sym("=")) == None
  {
  }

  /** Reading a chain of level k passes through e and goes on with whatever follows it. */
  lemma {:induction false} ChainThrough(env: C.Env, e: Expr, k: nat, ts: seq<Token>, i: nat)
    requires k < LEVELS && Derived(env, e, k + 1) && Stands(ts, i, Spell(e)) && Ends(ts, i + |Spell(e)|, k)
    ensures Chain(k, env, ts, i) == Tail(k, env, ts, i + |Spell(e)|, e)
    decreases e, 3 * k + 2
  {
    hide C.Locate, Operator, Primary, Operand, Chain, Tail, Derived, Spell, Stands, Ends;
    if e.Bin? && LevelOf(e.op) == k {
      var m := i + |Spell(e.left)|;
      BinParts(env, e, k);
      StandsSplit(ts, i, Spell(e.left) + [Spelling(e.op)], Spell(e.right));
      StandsSplit(ts, i, Spell(e.left), [Spelling(e.op)]);
      StandsInside(ts, i + |Spell(e.left)| + 1, Spell(e.right));
      OperatorEnds(ts, m, e.op);
      ChainThrough(env, e.left, k, ts, i);
      OperandTrip(env, e.right, k, ts, m + 1);
      TailTakes(k, env, ts, m, e);
    } else {
      DerivedLower(env, e, k);
      OperandTrip(env, e, k, ts, i);
      ChainIs(k, env, ts, i);
    }
  }

  lemma BinParts(env: C.Env, e: Expr, k: nat)
    requires e.Bin? && LevelOf(e.op) == k && Derived(env, e, k + 1)
    ensures Derived(env, e.left, k + 1) && Derived(env, e.right, k)
    ensures Spell(e) == Spell(e.left) + [Spelling(e.op)] + Spell(e.right)
  {
    hide C.Locate, LevelOf;
  }

  lemma StandsInside(ts: seq<Token>, i: nat, part: seq<Token>)
    requires Stands(ts, i, part)
    ensures i + |part| <= |ts|
  {
  }

  lemma OperatorEnds(ts: seq<Token>, m: nat, op: BinOp)
    requires m < |ts| && Reads(ts[m], Spelling(op))
    ensures Ends(ts, m, LevelOf(op)) && Operator(LevelOf(op), ts[m]) == Some(op)
  {
    hide Operator, Spelling, Spells, Reads;
    ReadsSpells(ts[m], Spelling(op), op);
    forall k: nat | k < LEVELS ensures Operator(k, ts[m]) == if k == LevelOf(op) then Some(op) else None {
      OperatorSpells(k, op, ts[m]);
      if k != LevelOf(op) { OneSpelling(k, op, ts[m]); }
    }
    PlainOperator(op, ts[m]);
  }

  lemma OneSpelling(k: nat, op: BinOp, t: Token)
    requires Spells(op, t) && k < LEVELS && k != LevelOf(op)
    ensures Operator(k, t) == None
  {
  }

  lemma PlainOperator(op: BinOp, t: Token)
    requires Spells(op, t)
    ensures t !in {Sym("("), Sym("["), Sym("=")}
  {
  }

  lemma ChainIs(k: nat, env: C.Env, ts: seq<Token>, i: nat)
    ensures Operand(k, env, ts, i).Ok? ==>
      Chain(k, env, ts, i) == Tail(k, env, ts, Operand(k, env, ts, i).at, Operand(k, env, ts, i).v)
  {
    hide Operand, Tail;
  }

  lemma TailTakes(k: nat, env: C.Env, ts: seq<Token>, m: nat, e: Expr)
    requires m < |ts| && e.Bin? && Operator(k, ts[m]) == Some(e.op)
    requires Operand(k, env, ts, m + 1).Ok? && Operand(k, env, ts, m + 1).v == e.right
    ensures Tail(k, env, ts, m, e.left) == Tail(k, env, ts, Operand(k, env, ts, m + 1).at, e)
  {
    hide Operator, Operand;
  }

  lemma DerivedLower(env: C.Env, e: Expr, k: nat)
    requires Derived(env, e, k + 1) && k < LEVELS && !(e.Bin? && LevelOf(e.op) == k)
    ensures Derived(env, e, k)
  {
    hide C.Locate;
  }

  lemma {:induction false} OperandTrip(env: C.Env, e: Expr, k: nat, ts: seq<Token>, i: nat)
    requires k < LEVELS && Derived(env, e, k) && Stands(ts, i, Spell(e)) && Ends(ts, i + |Spell(e)|, k)
    ensures Operand(k, env, ts, i) == Ok(e, i + |Spell(e)|)
    decreases e, 3 * k + 1
  {
    hide C.Locate, Operator, Primary, Spell, Derived, Chain;
    if k == 0 {
      PrimaryTrip(env, e, ts, i);
    } else {
      ChainTrip(env, e, k - 1, ts, i);
    }
  }

  lemma {:induction false} ChainTrip(env: C.Env, e: Expr, k: nat, ts: seq<Token>, i: nat)
    requires k < LEVELS && Derived(env, e, k + 1) && Stands(ts, i, Spell(e)) && Ends(ts, i + |Spell(e)|, k + 1)
    ensures Chain(k, env, ts, i) == Ok(e, i + |Spell(e)|)
    decreases e, 3 * k + 3
  {
    hide C.Locate, Operator, Primary, Spell, Derived, Chain;
    EndsLower(ts, i + |Spell(e)|, k + 1, k);
    ChainThrough(env, e, k, ts, i);
  }

  /** An address operand, just before '='. */
  lemma AddressTrip(env: C.Env, x: string, ts: seq<Token>, i: nat)
    requires Usable(env, x) && Is(ts, i, Name(x)) && Is(ts, i + 1, Sym("="))
    ensures Chain(LEVELS - 1, env, ts, i) == Ok(LVal(x), i + 1)
  {
    hide C.Locate;
    Separators();
    assert Primary(env, ts, i) == Ok(LVal(x), i + 1);
    assert Operand(0, env, ts, i) == Ok(LVal(x), i + 1);
    assert Chain(0, env, ts, i) == Ok(LVal(x), i + 1);
    assert Chain(1, env, ts, i) == Ok(LVal(x), i + 1);
    assert Operand(2, env, ts, i) == Ok(LVal(x), i + 1);
  }

  /** The spelling of an expression, followed by anything that cannot continue it, parses back to it. */
  lemma {:induction false} ExpressionTrip(env: C.Env, e: Expr, ts: seq<Token>, i: nat)
    requires Derived(env, e, LEVELS + 1) && Stands(ts, i, Spell(e)) && Ends(ts, i + |Spell(e)|, LEVELS + 1)
    ensures Expression(env, ts, i) == Ok(e, i + |Spell(e)|)
    decreases e, 20
  {
    hide C.Locate, Operator, Primary, Chain;
    if e.Assign? {
      StandsSplit(ts, i, Spell(e.target) + [Sym("=")], Spell(e.value));
      StandsSplit(ts, i, Spell(e.target), [Sym("=")]);
      AddressTrip(env, e.target.x, ts, i);
      ExpressionTrip(env, e.value, ts, i + 2);
    } else {
      NoAssign(env, e);
      EndsLower(ts, i + |Spell(e)|, LEVELS + 1, LEVELS);
      ChainTrip(env, e, LEVELS - 1, ts, i);
    }
  }

  lemma NoAssign(env: C.Env, e: Expr)
    requires Derived(env, e, LEVELS + 1) && !e.Assign?
    ensures Derived(env, e, LEVELS)
  {
    hide C.Locate;
  }
}
