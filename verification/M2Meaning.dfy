/**
  What the tokens mean: the value of every operator in every spelling, how operators group,
  and which declaration a name refers to, in terms of numbers and bits alone.
 */
module M2Meaning {
  import opened Options
  import opened M2Word
  import opened M2Source
  import opened M2Grammar
  import opened M2RoundTrip
  import D = DoubleWord
  import L = LongDivision
  import C = M2Codegen

  // ----- operators -----

  /** Bit k of a word in two's complement. */
  function Bit(w: int, k: nat): (b: nat)
    ensures b < 2
  {
    w / Pow2(k) % 2
  }

  predicate SameWord(x: int, y: int) { (x - y) % 0x1_0000_0000 == 0 }

  /** Division of a by b with quotient q and a remainder x that has the sign of a. */
  predicate Divided(a: int, b: int, q: int, x: int) {
    && a == b * q + x
    && (if x < 0 then -x else x) < (if b < 0 then -b else b)
    && (x > 0 ==> a > 0) && (x < 0 ==> a < 0)
  }

  /** The value of `a t b`; None where the processor traps. */
  ghost predicate Means(t: string, a: Word, b: Word, r: Option<Word>) {
    match t
    case "+" => r.Some? && SameWord(r.value, a + b)
    case "-" => r.Some? && SameWord(r.value, a - b)
    case "*" => r.Some? && SameWord(r.value, a * b)
    case "/" => if b == 0 || (a == -0x8000_0000 && b == -1) then r.None? else r.Some? && exists x :: Divided(a, b, r.value, x)
    case "%" => if b == 0 || (a == -0x8000_0000 && b == -1) then r.None? else r.Some? && exists q :: Divided(a, b, q, r.value)
    case "<<" => r.Some? && SameWord(r.value, a * Pow2(b % 32))
    case ">>" => r.Some? && r.value * Pow2(b % 32) <= a < (r.value + 1) * Pow2(b % 32)
    case "<" => r == Some(if a < b then 1 else 0)
    case "<=" => r == Some(if a <= b then 1 else 0)
    case ">" => r == Some(if a > b then 1 else 0)
    case ">=" => r == Some(if a >= b then 1 else 0)
    case "==" => r == Some(if a == b then 1 else 0)
    case "!=" => r == Some(if a != b then 1 else 0)
    case "&" => r.Some? && BothBits(a, b, r.value)
    case "&&" => r.Some? && BothBits(a, b, r.value)
    case "|" => r.Some? && EitherBit(a, b, r.value)
    case "||" => r.Some? && EitherBit(a, b, r.value)
    case "^" => r.Some? && UnlikeBits(a, b, r.value)
    case _ => false
  }

  ghost predicate BothBits(a: int, b: int, x: int) {
    forall k: nat :: k < 32 ==> (Bit(x, k) == 1 <==> Bit(a, k) == 1 && Bit(b, k) == 1)
  }

  ghost predicate EitherBit(a: int, b: int, x: int) {
    forall k: nat :: k < 32 ==> (Bit(x, k) == 1 <==> Bit(a, k) == 1 || Bit(b, k) == 1)
  }

  ghost predicate UnlikeBits(a: int, b: int, x: int) {
    forall k: nat :: k < 32 ==> (Bit(x, k) == 1 <==> Bit(a, k) != Bit(b, k))
  }

  lemma HalfQuotient(x: nat, m: nat)
    requires m > 0
    ensures x / (2 * m) == x / 2 / m
  {
    var q, h := x / 2 / m, x / 2;
    QuotientBounds(h, m);
    assert m * q <= h < m * q + m;
    assert 2 * m * q == 2 * (m * q) && 2 * m * q <= x < 2 * m * q + 2 * m;
    L.DivisionUnique(x, 2 * m, q, x - 2 * m * q);
  }

  /** A bit of the combination is the combination of the bits. */
  lemma {:induction false} BitOfBits(op: Logic, a: nat, b: nat, n: nat, k: nat)
    requires k < n
    ensures Bit(Bits(op, a, b, n), k) == LogicBit(op, Bit(a, k), Bit(b, k))
  {
    hide Pow2, Bits;
    D.PowZero();
    BitsUnfold(op, a, b, n);
    if k > 0 {
      D.PowStep(k);
      BitOfBits(op, a / 2, b / 2, n - 1, k - 1);
      var m := Pow2(k - 1);
      HalfQuotient(Bits(op, a, b, n), m);
      HalfQuotient(a, m);
      HalfQuotient(b, m);
    }
  }

  lemma {:induction false} BitsUnfold(op: Logic, a: nat, b: nat, n: nat)
    requires n > 0
    ensures Bits(op, a, b, n) % 2 == LogicBit(op, a % 2, b % 2) && Bits(op, a, b, n) / 2 == Bits(op, a / 2, b / 2, n - 1)
  {
    OddOrEven(LogicBit(op, a % 2, b % 2), Bits(op, a / 2, b / 2, n - 1));
  }

  lemma OddOrEven(l: nat, c: int)
    requires l < 2
    ensures (l + 2 * c) % 2 == l && (l + 2 * c) / 2 == c
  {
  }

  /** Adding 2^32 changes none of the 32 bits. */
  lemma SameBit(w: int, k: nat)
    requires k < 32
    ensures Bit(w + 0x1_0000_0000, k) == Bit(w, k)
  {
    hide Pow2;
    D.PowSum(k, 32 - k);
    D.PowerOfTwo32();
    D.PowStep(32 - k);
    var c := Pow2(31 - k);
    ShiftedQuotient(w, Pow2(k), 2 * c);
    EvenShift(w / Pow2(k), c);
  }

  lemma EvenShift(x: int, c: int)
    ensures (x + 2 * c) % 2 == x % 2
  {
  }

  lemma ShiftedQuotient(w: int, p: nat, c: int)
    requires p > 0
    ensures (w + p * c) / p == w / p + c
  {
    assert p * (w / p + c) == p * (w / p) + p * c;
    FloorUnique(w + p * c, p, w / p + c);
  }

  lemma FloorUnique(x: int, d: nat, q: int)
    requires d > 0 && d * q <= x < d * q + d
    ensures x / d == q
  {
    var k := x / d - q;
    assert d * (x / d) == d * q + d * k;
    if k >= 1 {
      AtLeast(d, k);
    } else if k <= -1 {
      AtLeast(d, -k);
    }
  }

  lemma AtLeast(d: nat, k: int)
    requires k >= 1
    ensures d * k >= d && d * -k <= -(d as int)
  {
    assert d * (k - 1) >= 0;
  }

  lemma WordBits(w: Word, k: nat)
    requires k < 32
    ensures Bit(Unsigned(w), k) == Bit(w, k)
  {
    if w < 0 { SameBit(w, k); }
  }

  lemma WrapBits(u: nat, k: nat)
    requires u < 0x1_0000_0000 && k < 32
    ensures Bit(Wrap(u), k) == Bit(u, k)
  {
    WordBits(Wrap(u), k);
  }

  lemma BitwiseBit(op: Logic, a: Word, b: Word, k: nat)
    requires k < 32
    ensures Bit(Bitwise(op, a, b), k) == LogicBit(op, Bit(a, k), Bit(b, k))
  {
    hide Pow2, Bits, Wrap, Unsigned;
    var x := Bits(op, Unsigned(a), Unsigned(b), 32);
    D.BitsBound(op, Unsigned(a), Unsigned(b), 32);
    D.PowerOfTwo32();
    WrapBits(x, k);
    BitOfBits(op, Unsigned(a), Unsigned(b), 32, k);
    WordBits(a, k);
    WordBits(b, k);
  }

  lemma BitwiseMeans(t: string, op: Logic, a: Word, b: Word)
    requires match op case LAnd => t == "&" || t == "&&" case LOr => t == "|" || t == "||" case LXor => t == "^"
    ensures Means(t, a, b, Some(Bitwise(op, a, b)))
  {
    hide Bitwise, Bit;
    var x := Bitwise(op, a, b);
    forall k: nat | k < 32 ensures Bit(x, k) == LogicBit(op, Bit(a, k), Bit(b, k)) {
      BitwiseBit(op, a, b, k);
    }
  }

  lemma WrapSame(x: int)
    ensures SameWord(Wrap(x), x)
  {
  }

  lemma TruncatingMeans(a: Word, b: Word)
    requires b != 0 && !(a == -0x8000_0000 && b == -1)
    ensures Wrap(TruncDiv(a, b)) == TruncDiv(a, b) && Wrap(TruncMod(a, b)) == TruncMod(a, b)
    ensures Divided(a, b, TruncDiv(a, b), TruncMod(a, b))
  {
    hide TruncDiv, Abs;
    TruncDivRange(a, b);
    WrapRange(TruncDiv(a, b));
    WrapRange(TruncMod(a, b));
    RemainderSign(a, b);
  }

  lemma WrapRange(x: int)
    requires -0x8000_0000 <= x < 0x8000_0000
    ensures Wrap(x) == x
  {
  }

  lemma ProductPart(a: int, b: int) returns (m: nat)
    requires b != 0
    ensures 0 <= Abs(a) - m < Abs(b) && b * TruncDiv(a, b) == if a < 0 then -(m as int) else m
  {
    hide TruncDiv, Abs;
    var n, d := Abs(a), Abs(b);
    assert d > 0 by { NonzeroAbs(b); }
    QuotientBounds(n, d);
    ProductSign(a, b);
    m := n - (n - d * (n / d));
  }

  lemma NonzeroAbs(b: int)
    requires b != 0
    ensures Abs(b) > 0
  {
  }

  lemma RemainderSign(a: int, b: int)
    requires b != 0
    ensures Divided(a, b, TruncDiv(a, b), TruncMod(a, b))
  {
    hide TruncDiv, Abs;
    var m := ProductPart(a, b);
    SignedRest(a, b, m, b * TruncDiv(a, b));
  }

  lemma SignedRest(a: int, b: int, m: int, t: int)
    requires 0 <= Abs(a) - m < Abs(b) && t == if a < 0 then -m else m
    requires m >= 0
    ensures var x := a - t;
      && (if x < 0 then -x else x) < (if b < 0 then -b else b) && (x > 0 ==> a > 0) && (x < 0 ==> a < 0)
  {
  }

  lemma ShiftMeans(a: Word, b: Word)
    ensures Means("<<", a, b, Some(Wrap(a * Pow2(Unsigned(b) % 32))))
    ensures Means(">>", a, b, Some(Wrap(a / Pow2(Unsigned(b) % 32))))
  {
    hide Pow2;
    var m: int := Pow2(b % 32);
    assert Unsigned(b) % 32 == b % 32;
    WrapSame(a * m);
    FloorBounds(a, m);
    WrapIdentity(a / m);
  }

  lemma FloorBounds(a: Word, m: int)
    requires m > 0
    ensures a / m * m <= a < (a / m + 1) * m && -0x8000_0000 <= a / m < 0x8000_0000
  {
    assert a == m * (a / m) + a % m;
    if a >= 0 {
      QuotientBounds(a, m);
    } else {
      assert (a / m) * m >= a - m + 1;
      if a / m < a { MulMonotone(1, m, 1); }
    }
  }

  const ARITHMETIC := {"+", "-", "*", "/", "%", "<<", ">>"}
  const RELATIONAL := {"<", "<=", ">", ">=", "==", "!="}
  const BITWISE := {"&", "&&", "|", "||", "^"}

  /** The three levels, tightest first. */
  predicate Tighter(t: string, u: string) {
    (t in ARITHMETIC && u !in ARITHMETIC) || (t in RELATIONAL && u in BITWISE)
  }

  lemma OperatorOf(t: string) returns (op: BinOp)
    requires t in ARITHMETIC + RELATIONAL + BITWISE
    ensures Spells(op, Sym(t))
  {
    op := match t
      case "+" => Add case "-" => Sub case "*" => Mul case "/" => Div case "%" => Mod case "<<" => Shl case ">>" => Shr
      case "<" => Lt case "<=" => Le case ">" => Gt case ">=" => Ge case "==" => Eq case "!=" => Ne
      case "&" => And case "&&" => And case "|" => Or case "||" => Or
      case _ => Xor;
  }

  lemma ApplyMeans(op: BinOp, t: string, a: Word, b: Word)
    requires Spells(op, Sym(t))
    ensures Means(t, a, b, Apply(op, a, b))
  {
    hide Wrap, TruncDiv, TruncMod, Bitwise, BothBits, EitherBit, UnlikeBits, Divided, SameWord;
    match op
    case Add => WrapSame(a + b);
    case Sub => WrapSame(a - b);
    case Mul => WrapSame(a * b);
    case Div | Mod => if b != 0 && !(a == -0x8000_0000 && b == -1) { TruncatingMeans(a, b); }
    case Shl | Shr => ShiftMeans(a, b);
    case And => BitwiseMeans(t, LAnd, a, b);
    case Or => BitwiseMeans(t, LOr, a, b);
    case Xor => BitwiseMeans(t, LXor, a, b);
    case _ =>
  }

  /** What an operator makes of two constants; the frame and the globals stay. */
  ghost predicate Valued(t: string, a: Word, b: Word, fr: Frame, g: Globals, r: Eval) {
    match r
    case NoValue => Means(t, a, b, None)
    case Value(v, fr1, g1) => fr1 == fr && g1 == g && v.Some? && Means(t, a, b, v)
  }

  /** The tokens `a t b;` are an expression with the value that the operator has on numbers and bits. */
  lemma BinaryMeans(env: C.Env, a: Word, t: string, b: Word, fuel: nat, p: Program, fr: Frame, g: Globals)
    requires t in ARITHMETIC + RELATIONAL + BITWISE
    ensures var r := Expression(env, [Num(a), Sym(t), Num(b), Sym(";")], 0);
      r.Ok? && r.at == 3 && Valued(t, a, b, fr, g, EvalExpr(fuel, p, fr, g, r.v))
  {
    hide Expression, Means, Apply, Spells, Operator;
    var op := OperatorOf(t);
    var e, ts := Bin(op, Const(a), Const(b)), [Num(a), Sym(t), Num(b), Sym(";")];
    TwoOperands(env, op, a, t, b, ts);
    ApplyMeans(op, t, a, b);
    BinaryValue(fuel, p, fr, g, op, a, b);
  }

  lemma BinaryValue(fuel: nat, p: Program, fr: Frame, g: Globals, op: BinOp, a: Word, b: Word)
    ensures EvalExpr(fuel, p, fr, g, Bin(op, Const(a), Const(b)))
      == if Apply(op, a, b).Some? then Value(Apply(op, a, b), fr, g) else NoValue
  {
    hide Apply, Read, Write, M2Source.Unary, EvalArgs, CallFun;
    assert EvalExpr(fuel, p, fr, g, Const(a)) == Value(Some(a), fr, g);
    assert EvalExpr(fuel, p, fr, g, Const(b)) == Value(Some(b), fr, g);
  }

  lemma TwoOperands(env: C.Env, op: BinOp, a: Word, t: string, b: Word, ts: seq<Token>)
    requires Spells(op, Sym(t)) && ts == [Num(a), Sym(t), Num(b), Sym(";")]
    ensures Expression(env, ts, 0) == Ok(Bin(op, Const(a), Const(b)), 3)
  {
    hide Expression, Spells, LevelOf, Operator, Reads;
    var e := Bin(op, Const(a), Const(b));
    assert Spell(e) == [Num(a), Spelling(op), Num(b)];
    ReadsSpells(Sym(t), Spelling(op), op);
    ReadsSame();
    Semicolon();
    ExpressionTrip(env, e, ts, 0);
  }

  lemma ReadsSame()
    ensures forall t: Token :: Reads(t, t)
  {
  }

  lemma Semicolon()
    ensures forall k: nat :: k < LEVELS ==> Operator(k, Sym(";")) == None
  {
  }

  predicate UnaryValued(t: string, a: Word, fr: Frame, g: Globals, r: Eval) {
    r.Value? && r.fr == fr && r.g == g && r.v.Some? &&
    match t
    case "-" => SameWord(r.v.value, -(a as int))
    case "!" => r.v.value == if a == 0 then 1 else 0
    case "~" => r.v.value + a == -1
    case _ => false
  }

  /** The same for the three unary operators. */
  lemma UnaryMeans(env: C.Env, t: string, a: Word, fuel: nat, p: Program, fr: Frame, g: Globals)
    requires t in {"-", "!", "~"}
    ensures var r := Expression(env, [Sym(t), Num(a), Sym(";")], 0);
      r.Ok? && r.at == 2 && UnaryValued(t, a, fr, g, EvalExpr(fuel, p, fr, g, r.v))
  {
    hide Expression, Wrap, SameWord;
    var op := if t == "-" then Neg else if t == "!" then Not else Compl;
    var e, ts := Un(op, Const(a)), [Sym(t), Num(a), Sym(";")];
    OneOperand(env, op, a, ts);
    WrapSame(0 - a);
    UnaryValue(fuel, p, fr, g, op, a);
  }

  lemma OneOperand(env: C.Env, op: UnOp, a: Word, ts: seq<Token>)
    requires ts == [UnaryToken(op), Num(a), Sym(";")]
    ensures Expression(env, ts, 0) == Ok(Un(op, Const(a)), 2)
  {
    hide Expression, Operator, Reads;
    var e := Un(op, Const(a));
    assert Spell(e) == [UnaryToken(op), Num(a)];
    ReadsSame();
    Semicolon();
    ExpressionTrip(env, e, ts, 0);
  }

  lemma UnaryValue(fuel: nat, p: Program, fr: Frame, g: Globals, op: UnOp, a: Word)
    ensures EvalExpr(fuel, p, fr, g, Un(op, Const(a))) == Value(Some(M2Source.Unary(op, a)), fr, g)
  {
    hide Apply, Read, Write, M2Source.Unary, EvalArgs, CallFun;
    assert EvalExpr(fuel, p, fr, g, Const(a)) == Value(Some(a), fr, g);
  }

  /** Three operands: a tighter operator on the right takes the middle one, else the left operator does. */
  lemma Grouping(env: C.Env, a: Word, t: string, b: Word, u: string, c: Word, x: BinOp, y: BinOp)
    requires Spells(x, Sym(t)) && Spells(y, Sym(u))
    ensures Expression(env, [Num(a), Sym(t), Num(b), Sym(u), Num(c), Sym(";")], 0)
      == Ok(if Tighter(u, t) then Bin(x, Const(a), Bin(y, Const(b), Const(c))) else Bin(y, Bin(x, Const(a), Const(b)), Const(c)), 5)
  {
    hide Expression, Stands, Derived, Spells, LevelOf, Tighter, Spell, Ends;
    var ts := [Num(a), Sym(t), Num(b), Sym(u), Num(c), Sym(";")];
    LevelMeans(x, t, y, u);
    var e := if LevelOf(y) < LevelOf(x) then Bin(x, Const(a), Bin(y, Const(b), Const(c))) else Bin(y, Bin(x, Const(a), Const(b)), Const(c));
    GroupDerived(env, x, y, a, b, c);
    GroupSpelled(x, y, a, b, c);
    GroupStands(ts, a, t, b, u, c, x, y);
    SemicolonEnds(ts, 5);
    ExpressionTrip(env, e, ts, 0);
  }

  lemma SemicolonEnds(ts: seq<Token>, j: nat)
    requires j < |ts| && ts[j] == Sym(";")
    ensures Ends(ts, j, LEVELS + 1)
  {
    hide Operator;
    Semicolon();
  }

  lemma GroupSpelled(x: BinOp, y: BinOp, a: Word, b: Word, c: Word)
    ensures Spell(Bin(x, Const(a), Bin(y, Const(b), Const(c)))) == [Num(a), Spelling(x), Num(b), Spelling(y), Num(c)]
    ensures Spell(Bin(y, Bin(x, Const(a), Const(b)), Const(c))) == [Num(a), Spelling(x), Num(b), Spelling(y), Num(c)]
  {
    hide Spelling;
    assert Spell(Bin(x, Const(a), Const(b))) == [Num(a), Spelling(x), Num(b)];
    assert Spell(Bin(y, Const(b), Const(c))) == [Num(b), Spelling(y), Num(c)];
  }

  lemma GroupStands(ts: seq<Token>, a: Word, t: string, b: Word, u: string, c: Word, x: BinOp, y: BinOp)
    requires Spells(x, Sym(t)) && Spells(y, Sym(u)) && ts == [Num(a), Sym(t), Num(b), Sym(u), Num(c), Sym(";")]
    ensures Stands(ts, 0, [Num(a), Spelling(x), Num(b), Spelling(y), Num(c)])
  {
    hide Spells, Reads, Spelling;
    ReadsSpells(Sym(t), Spelling(x), x);
    ReadsSpells(Sym(u), Spelling(y), y);
    ReadsSame();
  }

  lemma GroupDerived(env: C.Env, x: BinOp, y: BinOp, a: Word, b: Word, c: Word)
    ensures LevelOf(y) < LevelOf(x) ==> Derived(env, Bin(x, Const(a), Bin(y, Const(b), Const(c))), LEVELS + 1)
    ensures LevelOf(x) <= LevelOf(y) ==> Derived(env, Bin(y, Bin(x, Const(a), Const(b)), Const(c)), LEVELS + 1)
  {
    hide LevelOf, Derived;
    ConstantsDerived(env);
    if LevelOf(y) < LevelOf(x) {
      BinaryDerived(env, y, Const(b), Const(c), LevelOf(x));
      BinaryDerived(env, x, Const(a), Bin(y, Const(b), Const(c)), LEVELS + 1);
    } else {
      BinaryDerived(env, x, Const(a), Const(b), LevelOf(y) + 1);
      BinaryDerived(env, y, Bin(x, Const(a), Const(b)), Const(c), LEVELS + 1);
    }
  }

  lemma ConstantsDerived(env: C.Env)
    ensures forall n: Word, rank: nat :: Derived(env, Const(n), rank)
  {
  }

  lemma BinaryDerived(env: C.Env, op: BinOp, l: Expr, r: Expr, rank: nat)
    requires LevelOf(op) < rank && Derived(env, l, LevelOf(op) + 1) && Derived(env, r, LevelOf(op))
    ensures Derived(env, Bin(op, l, r), rank)
  {
    hide LevelOf;
  }

  lemma LevelMeans(x: BinOp, t: string, y: BinOp, u: string)
    requires Spells(x, Sym(t)) && Spells(y, Sym(u))
    ensures LevelOf(y) < LevelOf(x) <==> Tighter(u, t)
  {
  }

  // ----- names -----

  /** A constant is one everywhere; otherwise the latest declaration of the block structure counts. */
  lemma DeclaredLast(sc: Scope, args: seq<string>, locals: seq<string>, x: string, y: string)
    ensures x in sc.consts ==> Locate(sc, args, locals, x) == Constant(sc.consts[x])
    ensures x !in sc.consts ==> Locate(sc, args, locals + [x], x) == Local(|locals|)
    ensures x != y ==> Locate(sc, args, locals + [y], x) == Locate(sc, args, locals, x)
    ensures x !in sc.consts ==> Locate(sc, args + [x], [], x) == Arg(|args|)
    ensures x != y ==> Locate(sc, args + [y], [], x) == Locate(sc, args, [], x)
    ensures x !in sc.consts && x in sc.funs ==> Locate(sc, [], [], x) == FunctionName
    ensures x !in sc.consts && x !in sc.funs ==> Locate(sc, [], [], x) == if x in sc.globs then Global else Unknown
  {
    assert (locals + [y])[..|locals|] == locals && (args + [y])[..|args|] == args;
    assert (locals + [x])[..|locals|] == locals && (args + [x])[..|args|] == args;
  }
}
