/**
  The grammar m2min/M2_tcc.c recognises, restricted to int: which token sequences are
  expressions, statements and programs, and what they denote. A parse fails where the
  compiler exits with an error.
 */
module M2Grammar {
  import opened Options
  import opened M2Word
  import opened M2Source
  import C = M2Codegen

  datatype Token = Num(n: Word) | Name(s: string) | Sym(s: string)

  datatype Parse<+T> = Ok(v: T, at: nat) | Fail

  const KEYWORDS: set<string> := {"auto", "break", "case", "char", "const", "continue", "default", "do", "double",
    "else", "enum", "extern", "float", "for", "goto", "if", "int", "long", "register", "return", "short", "signed",
    "sizeof", "static", "struct", "switch", "typedef", "union", "unsigned", "void", "volatile", "while"}

  predicate Is(ts: seq<Token>, i: nat, t: Token) { i < |ts| && ts[i] == t }

  /** The three operator levels, tightest first: arithmetic and shifts, relational, bitwise. */
  const LEVELS := 3

  function Operator(level: nat, t: Token): Option<BinOp> {
    if !t.Sym? then None
    else if level == 0 then
      (match t.s
       case "+" => Some(Add) case "-" => Some(Sub) case "*" => Some(Mul) case "/" => Some(Div)
       case "%" => Some(Mod) case "<<" => Some(Shl) case ">>" => Some(Shr) case _ => None)
    else if level == 1 then
      (match t.s
       case "<" => Some(Lt) case "<=" => Some(Le) case ">=" => Some(Ge) case ">" => Some(Gt)
       case "==" => Some(Eq) case "!=" => Some(Ne) case _ => None)
    else
      match t.s
      case "&" => Some(And) case "&&" => Some(And) case "|" => Some(Or) case "||" => Some(Or)
      case "^" => Some(Xor) case _ => None
  }

  /** The compiler tells most punctuation by its first character. */
  predicate Starts(s: string, c: char) { s != "" && s[0] == c }

  /** A name standing for a value or an address; function names and unknown names do not. */
  predicate Usable(env: C.Env, x: string) {
    !C.Locate(env, x).FunctionName? && !C.Locate(env, x).Unknown?
  }

  function Primary(env: C.Env, ts: seq<Token>, i: nat): (r: Parse<Expr>)
    ensures r.Ok? ==> i < r.at <= |ts|
    decreases |ts| - i, 0
  {
    if i >= |ts| then Fail else
    match ts[i]
    case Num(n) => Ok(Const(n), i + 1)
    case Name(x) =>
      if Is(ts, i + 1, Sym("(")) then
        if !C.Locate(env, x).FunctionName? then Fail else
        (match Arguments(env, ts, i + 2)
         case Fail => Fail
         case Ok(es, j) => Ok(Call(x, es), j))
      else if i + 1 >= |ts| || !Usable(env, x) then Fail
      else Ok(if Is(ts, i + 1, Sym("=")) then LVal(x) else Var(x), i + 1)
    case Sym(s) =>
      if Starts(s, '-') then Unary(Neg, Primary(env, ts, i + 1))
      else if Starts(s, '!') then Unary(Not, Operand(0, env, ts, i + 1))
      else if Starts(s, '~') then Unary(Compl, Operand(0, env, ts, i + 1))
      else if Starts(s, '(') then
        match Expression(env, ts, i + 1)
        case Fail => Fail
        case Ok(e, j) => if Is(ts, j, Sym(")")) then Ok(Paren(e), j + 1) else Fail
      else Fail
  }

  function Unary(op: UnOp, r: Parse<Expr>): Parse<Expr> {
    match r
    case Fail => Fail
    case Ok(e, j) => Ok(Un(op, e), j)
  }

  /** An operand of a level: a whole chain of the tighter level, or a primary expression.
      Subscripts belong to arrays and are refused. */
  function Operand(level: nat, env: C.Env, ts: seq<Token>, i: nat): (r: Parse<Expr>)
    ensures r.Ok? ==> i < r.at < |ts|
    decreases |ts| - i, 2 * level + 1
  {
    if level > 0 then Chain(level - 1, env, ts, i)
    else
      match Primary(env, ts, i)
      case Fail => Fail
      case Ok(e, j) => if j >= |ts| || ts[j] == Sym("[") then Fail else Ok(e, j)
  }

  /** Operands joined by the operators of one level, associating to the left. */
  function Chain(level: nat, env: C.Env, ts: seq<Token>, i: nat): (r: Parse<Expr>)
    ensures r.Ok? ==> i < r.at < |ts|
    decreases |ts| - i, 2 * level + 2
  {
    match Operand(level, env, ts, i)
    case Fail => Fail
    case Ok(e, j) => Tail(level, env, ts, j, e)
  }

  function Tail(level: nat, env: C.Env, ts: seq<Token>, i: nat, left: Expr): (r: Parse<Expr>)
    requires i < |ts|
    ensures r.Ok? ==> i <= r.at < |ts|
    decreases |ts| - i, 2 * level + 1
  {
    match Operator(level, ts[i])
    case None => Ok(left, i)
    case Some(op) =>
      match Operand(level, env, ts, i + 1)
      case Fail => Fail
      case Ok(right, j) => Tail(level, env, ts, j, Bin(op, left, right))
  }

  function Expression(env: C.Env, ts: seq<Token>, i: nat): (r: Parse<Expr>)
    ensures r.Ok? ==> i < r.at < |ts|
    decreases |ts| - i, 2 * LEVELS + 1
  {
    match Chain(LEVELS - 1, env, ts, i)
    case Fail => Fail
    case Ok(e, j) =>
      if ts[j] != Sym("=") then Ok(e, j) else
      match Expression(env, ts, j + 1)
      case Fail => Fail
      case Ok(v, k) => Ok(Assign(e, v), k)
  }

  /** The arguments of a call, after its opening parenthesis. */
  function Arguments(env: C.Env, ts: seq<Token>, i: nat): (r: Parse<seq<Expr>>)
    ensures r.Ok? ==> i < r.at <= |ts|
    decreases |ts| - i, 2 * LEVELS + 3
  {
    if i >= |ts| then Fail
    else if ts[i] == Sym(")") then Ok([], i + 1)
    else ArgumentsFrom(env, ts, i)
  }

  function ArgumentsFrom(env: C.Env, ts: seq<Token>, i: nat): (r: Parse<seq<Expr>>)
    ensures r.Ok? ==> i < r.at <= |ts|
    decreases |ts| - i, 2 * LEVELS + 2
  {
    match Expression(env, ts, i)
    case Fail => Fail
    case Ok(e, j) => Prepend(e, MoreArguments(env, ts, j))
  }

  function MoreArguments(env: C.Env, ts: seq<Token>, i: nat): (r: Parse<seq<Expr>>)
    requires i < |ts|
    ensures r.Ok? ==> i < r.at <= |ts|
    decreases |ts| - i, 2 * LEVELS + 3
  {
    if ts[i] == Sym(",") then ArgumentsFrom(env, ts, i + 1)
    else if ts[i] == Sym(")") then Ok([], i + 1)
    else Fail
  }

  function Prepend<T>(x: T, r: Parse<seq<T>>): Parse<seq<T>> {
    match r
    case Fail => Fail
    case Ok(xs, j) => Ok([x] + xs, j)
  }

  /** An expression and the token that must follow it. */
  function Followed(env: C.Env, ts: seq<Token>, i: nat, t: Token): (r: Parse<Expr>)
    ensures r.Ok? ==> i + 1 < r.at <= |ts|
  {
    match Expression(env, ts, i)
    case Fail => Fail
    case Ok(e, j) => if ts[j] == t then Ok(e, j + 1) else Fail
  }

  /** A statement; `inLoop` says whether a break has a loop to leave. */
  function Statement(env: C.Env, ts: seq<Token>, i: nat, inLoop: bool): (r: Parse<Stmt>)
    ensures r.Ok? ==> i < r.at <= |ts| && Braced(r.v)
    ensures r.Ok? && ts[i] != Name("int") ==> !r.v.Decl?
    decreases |ts| - i, 0
  {
    if i >= |ts| then Fail
    else if ts[i] == Sym("{") then
      (match Statements(env, ts, i + 1, inLoop)
       case Fail => Fail
       case Ok(ss, j) => Ok(Block(ss), j))
    else if ts[i] == Name("int") then Declaration(env, ts, i + 1)
    else if ts[i] == Name("if") then IfStatement(env, ts, i + 1, inLoop)
    else if ts[i] == Name("do") then DoStatement(env, ts, i + 1)
    else if ts[i] == Name("while") then WhileStatement(env, ts, i + 1)
    else if ts[i] == Name("for") then ForStatement(env, ts, i + 1)
    else if ts[i] == Name("return") then
      if Is(ts, i + 1, Sym(";")) then Ok(Return(None), i + 2) else
      (match Followed(env, ts, i + 1, Sym(";"))
       case Fail => Fail
       case Ok(e, j) => Ok(Return(Some(e)), j))
    else if ts[i] == Name("break") then
      if inLoop && Is(ts, i + 1, Sym(";")) then Ok(Break, i + 2) else Fail
    else
      match Followed(env, ts, i, Sym(";"))
      case Fail => Fail
      case Ok(e, j) => Ok(ExprS(e), j)
  }

  /** A branch or loop body; a declaration there is refused, and something must follow. */
  function Body(env: C.Env, ts: seq<Token>, i: nat, inLoop: bool): (r: Parse<Stmt>)
    ensures r.Ok? ==> i < r.at < |ts| && Braced(r.v) && !r.v.Decl?
    decreases |ts| - i, 1
  {
    if Is(ts, i, Name("int")) then Fail else
    match Statement(env, ts, i, inLoop)
    case Fail => Fail
    case Ok(s, j) => if j >= |ts| then Fail else Ok(s, j)
  }

  function Statements(env: C.Env, ts: seq<Token>, i: nat, inLoop: bool): (r: Parse<seq<Stmt>>)
    ensures r.Ok? ==> i < r.at <= |ts| && Braced(Block(r.v))
    decreases |ts| - i, 2
  {
    if i >= |ts| then Fail
    else if ts[i] == Sym("}") then Ok([], i + 1)
    else
      match Statement(env, ts, i, inLoop)
      case Fail => Fail
      case Ok(s, j) => Prepend(s, Statements(C.After(env, s), ts, j, inLoop))
  }

  function Declaration(env: C.Env, ts: seq<Token>, i: nat): (r: Parse<Stmt>)
    ensures r.Ok? ==> i < r.at <= |ts| && Braced(r.v)
  {
    if i >= |ts| || !ts[i].Name? || ts[i].s in KEYWORDS then Fail
    else if Is(ts, i + 1, Sym("=")) then
      match Followed(env.(locals := env.locals + [ts[i].s]), ts, i + 2, Sym(";"))
      case Fail => Fail
      case Ok(e, j) => Ok(Decl(ts[i].s, Some(e)), j)
    else if Is(ts, i + 1, Sym(";")) then Ok(Decl(ts[i].s, None), i + 2)
    else Fail
  }

  /** A condition in parentheses. */
  function Condition(env: C.Env, ts: seq<Token>, i: nat): (r: Parse<Expr>)
    ensures r.Ok? ==> i < r.at <= |ts|
  {
    if Is(ts, i, Sym("(")) then Followed(env, ts, i + 1, Sym(")")) else Fail
  }

  function IfStatement(env: C.Env, ts: seq<Token>, i: nat, inLoop: bool): (r: Parse<Stmt>)
    ensures r.Ok? ==> i < r.at < |ts| && Braced(r.v)
    decreases |ts| - i, 0
  {
    match Condition(env, ts, i)
    case Fail => Fail
    case Ok(c, j) =>
      match Body(env, ts, j, inLoop)
      case Fail => Fail
      case Ok(t, k) =>
        match ElseBranch(env, ts, k, inLoop)
        case Fail => Fail
        case Ok(e, m) => Ok(If(c, t, e), m)
  }

  function ElseBranch(env: C.Env, ts: seq<Token>, i: nat, inLoop: bool): (r: Parse<Option<Stmt>>)
    requires i < |ts|
    ensures r.Ok? ==> i <= r.at < |ts| && (r.v.Some? ==> Braced(r.v.value) && !r.v.value.Decl?)
    decreases |ts| - i, 2
  {
    if ts[i] != Name("else") then Ok(None, i) else
    match Body(env, ts, i + 1, inLoop)
    case Fail => Fail
    case Ok(e, j) => Ok(Some(e), j)
  }

  function WhileStatement(env: C.Env, ts: seq<Token>, i: nat): (r: Parse<Stmt>)
    ensures r.Ok? ==> i < r.at < |ts| && Braced(r.v)
    decreases |ts| - i, 0
  {
    match Condition(env, ts, i)
    case Fail => Fail
    case Ok(c, j) =>
      match Body(env, ts, j, true)
      case Fail => Fail
      case Ok(b, k) => Ok(While(c, b), k)
  }

  function DoStatement(env: C.Env, ts: seq<Token>, i: nat): (r: Parse<Stmt>)
    ensures r.Ok? ==> i < r.at <= |ts| && Braced(r.v)
    decreases |ts| - i, 2
  {
    match Body(env, ts, i, true)
    case Fail => Fail
    case Ok(b, j) =>
      match DoTest(env, ts, j)
      case Fail => Fail
      case Ok(c, k) => Ok(DoWhile(b, c), k)
  }

  function DoTest(env: C.Env, ts: seq<Token>, i: nat): (r: Parse<Expr>)
    ensures r.Ok? ==> i < r.at <= |ts|
  {
    if !Is(ts, i, Name("while")) then Fail else
    match Condition(env, ts, i + 1)
    case Fail => Fail
    case Ok(c, j) => if Is(ts, j, Sym(";")) then Ok(c, j + 1) else Fail
  }

  function ForStatement(env: C.Env, ts: seq<Token>, i: nat): (r: Parse<Stmt>)
    ensures r.Ok? ==> i < r.at < |ts| && Braced(r.v)
    decreases |ts| - i, 0
  {
    match ForStart(env, ts, i)
    case Fail => Fail
    case Ok(start, j) =>
      match ForControl(env, ts, j)
      case Fail => Fail
      case Ok((c, it), k) =>
        match Body(env, ts, k, true)
        case Fail => Fail
        case Ok(b, m) => Ok(For(start, c, it, b), m)
  }

  /** The opening parenthesis and the optional initialisation of a for loop. */
  function ForStart(env: C.Env, ts: seq<Token>, i: nat): (r: Parse<Option<Expr>>)
    ensures r.Ok? ==> i < r.at <= |ts|
  {
    if !Is(ts, i, Sym("(")) then Fail
    else if Is(ts, i + 1, Sym(";")) then Ok(None, i + 2)
    else
      match Followed(env, ts, i + 1, Sym(";"))
      case Fail => Fail
      case Ok(e, j) => Ok(Some(e), j)
  }

  /** The test and the step of a for loop, up to its closing parenthesis. */
  function ForControl(env: C.Env, ts: seq<Token>, i: nat): (r: Parse<(Expr, Expr)>)
    ensures r.Ok? ==> i < r.at <= |ts|
  {
    match Followed(env, ts, i, Sym(";"))
    case Fail => Fail
    case Ok(c, j) =>
      match Followed(env, ts, j, Sym(")"))
      case Fail => Fail
      case Ok(it, k) => Ok((c, it), k)
  }

  /** Parameter names after the opening parenthesis; unnamed ones leave no trace, and commas
      between parameters may be missing. */
  function Parameters(ts: seq<Token>, i: nat): (r: Parse<seq<string>>)
    ensures r.Ok? ==> i < r.at <= |ts|
    decreases |ts| - i
  {
    if i >= |ts| then Fail
    else if ts[i] == Sym(")") then Ok([], i + 1)
    else if ts[i] != Name("int") || i + 1 >= |ts| then Fail
    else if ts[i + 1] == Sym(")") then Parameters(ts, i + 1)
    else if ts[i + 1] == Sym(",") then Parameters(ts, i + 2)
    else if !ts[i + 1].Name? || ts[i + 1].s in KEYWORDS then Fail
    else Prepend(ts[i + 1].s, Parameters(ts, if Is(ts, i + 2, Sym(",")) then i + 3 else i + 2))
  }

  /** What is known at the start of a file. */
  const NO_NAMES := Scope(map[], {}, {})

  /** The declarations of a file from token i on, in the scope built so far: its functions. */
  function Declarations(sc: Scope, ts: seq<Token>, i: nat): (r: Parse<Program>)
    ensures r.Ok? ==> forall d :: d in r.v ==> Braced(d.body) && !d.body.Decl?
    decreases |ts| - i
  {
    if i >= |ts| then Ok([], i)
    else if ts[i] == Name("CONSTANT") then
      if i + 2 < |ts| && ts[i + 1].Name? && ts[i + 2].Num? then
        Declarations(sc.(consts := sc.consts[ts[i + 1].s := ts[i + 2].n]), ts, i + 3)
      else Fail
    else if ts[i] != Name("int") || i + 2 >= |ts| || !ts[i + 1].Name? then Fail
    else
      var x := ts[i + 1].s;
      var sc1 := sc.(globs := sc.globs + {x});
      if ts[i + 2] == Sym(";") then Declarations(sc1, ts, i + 3)
      else if ts[i + 2] != Sym("(") then Fail
      else
        var sc2 := sc1.(funs := sc1.funs + {x});
        match Parameters(ts, i + 3)
        case Fail => Fail
        case Ok(params, j) =>
          if j >= |ts| then Fail
          else if ts[j] == Sym(";") then Declarations(sc2, ts, j + 1)
          else if ts[j] == Name("int") then Fail
          else
            match Statement(C.Env(x, sc2, params, []), ts, j, false)
            case Fail => Fail
            case Ok(body, k) => Prepend(Fun(x, params, body, sc2), Declarations(sc2, ts, k))
  }
}
