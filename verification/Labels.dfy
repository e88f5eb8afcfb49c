/**
  Labels as the assembler sees them: a prefix, the function's name, an underscore and a
  decimal number. m2min/M2_simple_asm.c is modelled down to this spelling; for the labels
  of m2min/M2_tcc.c it is shown which two labels are spelled alike.
 */
module LabelText {
  import opened M2Word
  import opened Numerals

  const LIMIT: nat := 0x8000_0000

  type Number = n: nat | n < LIMIT

  /** `uniqueID`: what follows the prefix; the number is a 32-bit word. */
  function UniqueId(f: string, num: nat): string { f + "_" + Numeral(Wrap(num), 10, true) }

  lemma {:induction false} DigitsPlain(n: nat)
    ensures '_' !in Digits(n, 10)
    decreases n
  {
    hide Digit;
    DigitsStep(n, 10);
    DigitCode(n % 10);
    if n >= 10 { DigitsPlain(n / 10); }
  }

  /** No two numbers are printed alike. */
  lemma NumeralInjective(x: Word, y: Word)
    requires Numeral(x, 10, true) == Numeral(y, 10, true)
    ensures x == y
  {
    DecimalRoundTrip(x);
    DecimalRoundTrip(y);
  }

  /** The last underscore separates name and number, whatever the name is. */
  lemma UniqueIdDecodes(f: string, n: Number, g: string, m: Number)
    requires UniqueId(f, n) == UniqueId(g, m)
    ensures f == g && n == m
  {
    hide Numeral;
    WrapIdentity(n);
    WrapIdentity(m);
    var a, b := Numeral(n, 10, true), Numeral(m, 10, true);
    PlainNumeral(n);
    PlainNumeral(m);
    var s := UniqueId(f, n);
    assert s[|f|] == '_' && s[|g|] == '_';
    assert s[|f| + 1..] == a && s[|g| + 1..] == b;
    assert f == s[..|f|] && g == s[..|g|];
    NumeralInjective(n, m);
  }

  lemma PlainNumeral(n: Number)
    ensures '_' !in Numeral(n, 10, true)
  {
    DigitsPlain(n);
  }
}

module M2LabelText {
  import opened M2Machine
  import opened LabelText
  import M2Program
  import M2Codegen
  import Src = M2Source

  function Prefix(kind: LabelKind): string {
    match kind
    case ElseL => "ELSE_"
    case EndIfL => "_END_IF_"
    case ForL => "FOR_"
    case ForIterL => "FOR_ITER_"
    case ForThenL => "FOR_THEN_"
    case ForEndL => "FOR_END_"
    case DoL => "DO_"
    case DoTestL => "DO_TEST_"
    case DoEndL => "DO_END_"
    case WhileL => "WHILE_"
    case EndWhileL => "END_WHILE_"
  }

  predicate Printable(l: Label) { l.LocalL? ==> l.num < LIMIT }

  function Spell(l: Label): string {
    match l
    case FunctionL(f) => "FUNCTION_" + f
    case LocalL(kind, f, num) => Prefix(kind) + UniqueId(f, num)
  }

  /** The second kind's prefix is the first one's and these letters. */
  function Extension(kind: LabelKind, longer: LabelKind): string {
    if kind == ForL && longer == ForIterL then "ITER_"
    else if kind == ForL && longer == ForThenL then "THEN_"
    else if kind == ForL && longer == ForEndL then "END_"
    else if kind == DoL && longer == DoTestL then "TEST_"
    else if kind == DoL && longer == DoEndL then "END_"
    else ""
  }

  /** A loop of a function whose name begins like the rest of another prefix, e.g. a for loop in END_g. */
  predicate Clash(l: Label, m: Label) {
    && l.LocalL? && m.LocalL? && l.num == m.num
    && Extension(l.kind, m.kind) != "" && l.f == Extension(l.kind, m.kind) + m.f
  }

  lemma PrefixesDiffer(k: LabelKind, x: string, h: LabelKind, y: string)
    requires k != h && Prefix(k) + x == Prefix(h) + y
    ensures (Extension(k, h) != "" && x == Extension(k, h) + y) || (Extension(h, k) != "" && y == Extension(h, k) + x)
  {
    hide Prefix, Extension;
    if Extension(k, h) != "" {
      ExtensionPrefix(k, h);
      DropPrefix(Prefix(k), Extension(k, h), x, y);
    } else if Extension(h, k) != "" {
      ExtensionPrefix(h, k);
      DropPrefix(Prefix(h), Extension(h, k), y, x);
    } else {
      NoExtension(k, h);
      MismatchDiffers(Prefix(k), Prefix(h), x, y);
    }
  }

  lemma MismatchDiffers(p: string, q: string, x: string, y: string)
    requires exists i :: 0 <= i < |p| && i < |q| && p[i] != q[i]
    ensures p + x != q + y
  {
    var i :| 0 <= i < |p| && i < |q| && p[i] != q[i];
    assert (p + x)[i] == p[i] && (q + y)[i] == q[i];
  }

  lemma ExtensionPrefix(k: LabelKind, h: LabelKind)
    requires Extension(k, h) != ""
    ensures Prefix(h) == Prefix(k) + Extension(k, h)
  {
  }

  lemma DropPrefix(p: string, e: string, x: string, y: string)
    requires p + x == (p + e) + y
    ensures x == e + y
  {
    assert x == (p + x)[|p|..] == ((p + e) + y)[|p|..] == e + y;
  }

  lemma NoExtension(k: LabelKind, h: LabelKind)
    requires k != h && Extension(k, h) == "" && Extension(h, k) == ""
    ensures exists i :: 0 <= i < |Prefix(k)| && i < |Prefix(h)| && Prefix(k)[i] != Prefix(h)[i]
  {
    var p, q := Prefix(k), Prefix(h);
    if p[0] == q[0] {
      if p[1] == q[1] {
        assert p[3] != q[3] || p[4] != q[4];
      }
    }
  }

  /** Exactly which different labels are spelled alike. */
  lemma SpelledAlikeExactly(l: Label, m: Label)
    requires Printable(l) && Printable(m)
    ensures Spell(l) == Spell(m) <==> l == m || Clash(l, m) || Clash(m, l)
  {
    hide UniqueId, Prefix, Extension;
    if l.LocalL? && m.LocalL? {
      var x, y := UniqueId(l.f, l.num), UniqueId(m.f, m.num);
      if Spell(l) == Spell(m) {
        if l.kind == m.kind {
          assert Spell(l)[|Prefix(l.kind)|..] == x && Spell(m)[|Prefix(m.kind)|..] == y;
          UniqueIdDecodes(l.f, l.num, m.f, m.num);
        } else {
          PrefixesDiffer(l.kind, x, m.kind, y);
          if Extension(l.kind, m.kind) != "" && x == Extension(l.kind, m.kind) + y {
            IdExtends(Extension(l.kind, m.kind), m.f, m.num);
            UniqueIdDecodes(l.f, l.num, Extension(l.kind, m.kind) + m.f, m.num);
          } else {
            IdExtends(Extension(m.kind, l.kind), l.f, l.num);
            UniqueIdDecodes(m.f, m.num, Extension(m.kind, l.kind) + l.f, l.num);
          }
        }
      }
      if Clash(l, m) { ClashAlike(l, m); }
      if Clash(m, l) { ClashAlike(m, l); }
    } else if l.FunctionL? && m.FunctionL? {
      assert Spell(l)[9..] == l.f && Spell(m)[9..] == m.f;
    } else if l.FunctionL? {
      FunctionPrefix(m.kind);
      assert Spell(l)[0] == "FUNCTION_"[0] && Spell(l)[1] == "FUNCTION_"[1];
      assert Spell(m)[0] == Prefix(m.kind)[0] && Spell(m)[1] == Prefix(m.kind)[1];
    } else {
      FunctionPrefix(l.kind);
      assert Spell(m)[0] == "FUNCTION_"[0] && Spell(m)[1] == "FUNCTION_"[1];
      assert Spell(l)[0] == Prefix(l.kind)[0] && Spell(l)[1] == Prefix(l.kind)[1];
    }
  }

  lemma FunctionPrefix(kind: LabelKind)
    ensures |Prefix(kind)| > 1 && (Prefix(kind)[0] != 'F' || Prefix(kind)[1] != 'U')
  {
  }

  lemma IdExtends(e: string, f: string, num: Number)
    ensures e + UniqueId(f, num) == UniqueId(e + f, num)
  {
    hide Numerals.Numeral;
    assert e + (f + "_") == (e + f) + "_";
  }

  lemma ClashAlike(l: Label, m: Label)
    requires Printable(l) && Printable(m) && Clash(l, m)
    ensures Spell(l) == Spell(m)
  {
    hide UniqueId, Prefix, Extension;
    var e := Extension(l.kind, m.kind);
    IdExtends(e, m.f, m.num);
    ExtensionPrefix(l.kind, m.kind);
    assert Prefix(l.kind) + (e + UniqueId(m.f, m.num)) == Prefix(m.kind) + UniqueId(m.f, m.num);
  }

  /** No function's name is another one's with the rest of a longer prefix before it. */
  ghost predicate NamesApart(names: set<string>) {
    forall f, g, k, h :: f in names && g in names && Extension(k, h) != "" ==> f != Extension(k, h) + g
  }

  /** Then labels that differ are spelled differently. */
  lemma SpelledApart(l: Label, m: Label, names: set<string>)
    requires Printable(l) && Printable(m) && l != m && NamesApart(names)
    requires l.LocalL? && m.LocalL? ==> l.f in names && m.f in names
    ensures Spell(l) != Spell(m)
  {
    SpelledAlikeExactly(l, m);
  }

  /** In the code of a whole program every label that is defined is spelled differently from the others. */
  lemma ProgramSpelling(p: Src.Program, i: nat, j: nat)
    requires M2Program.Distinct(p) && NamesApart(set k | 0 <= k < |p| :: p[k].name)
    requires forall l :: l in M2Program.Marks(M2Codegen.ProgramCode(p)) ==> Printable(l)
    requires var code := M2Codegen.ProgramCode(p); i < j < |code| && code[i].Mark? && code[j].Mark?
    ensures var code := M2Codegen.ProgramCode(p); Spell(code[i].l) != Spell(code[j].l)
  {
    hide M2Codegen.ProgramCode, Spell;
    M2Program.ProgramLabels(p);
    var code, names := M2Codegen.ProgramCode(p), set k | 0 <= k < |p| :: p[k].name;
    assert code[i].l in M2Program.Marks(code) && code[j].l in M2Program.Marks(code);
    SpelledApart(code[i].l, code[j].l, names);
  }

  /** A for loop in a function END_g and one in a function g, both the first of their function. */
  lemma SpelledAlikeExample()
    ensures Spell(LocalL(ForL, "END_g", 0)) == Spell(LocalL(ForEndL, "g", 0))
  {
    assert "END_" + "g" == "END_g";
    SpelledAlikeExactly(LocalL(ForL, "END_g", 0), LocalL(ForEndL, "g", 0));
  }
}

module SimpleAsmLabels {
  import opened Options
  import opened M2Word
  import opened LabelText
  import Numerals

  datatype Kind = ElseL | EndIfL | WhileL | EndWhileL | StringL

  datatype Label = Numbered(kind: Kind, f: string, num: nat) | FunctionL(f: string) | GlobalL(name: string)

  /** A line that defines a label, or one that uses it; other lines are left out. */
  datatype Item<L> = Def(l: L) | Ref(l: L)

  function Prefix(kind: Kind): string {
    match kind
    case ElseL => "ELSE_"
    case EndIfL => "_END_IF_"
    case WhileL => "WHILE_"
    case EndWhileL => "END_WHILE_"
    case StringL => "STRING_"
  }

  predicate Printable(l: Label) { l.Numbered? ==> l.num < LIMIT }

  function Spell(l: Label): string {
    match l
    case Numbered(kind, f, num) => Prefix(kind) + UniqueId(f, num)
    case FunctionL(f) => "FUNCTION_" + f
    case GlobalL(name) => "GLOBAL_" + name
  }

  function Head(l: Label): string {
    match l
    case Numbered(kind, _, _) => Prefix(kind)
    case FunctionL(_) => "FUNCTION_"
    case GlobalL(_) => "GLOBAL_"
  }

  /** The first two letters tell the kinds apart. */
  lemma HeadsDiffer(l: Label, m: Label)
    requires Printable(l) && Printable(m) && Head(l) != Head(m)
    ensures Spell(l) != Spell(m)
  {
    hide UniqueId;
    assert Spell(l)[0] == Head(l)[0] && Spell(l)[1] == Head(l)[1];
    assert Spell(m)[0] == Head(m)[0] && Spell(m)[1] == Head(m)[1];
  }

  /** Here no prefix begins another one, so that labels are never confused. */
  lemma SpellInjective(l: Label, m: Label)
    requires Printable(l) && Printable(m) && Spell(l) == Spell(m)
    ensures l == m
  {
    hide UniqueId;
    if Head(l) != Head(m) {
      HeadsDiffer(l, m);
    } else {
      assert Spell(l)[|Head(l)|..] == Spell(m)[|Head(l)|..];
      if l.Numbered? && m.Numbered? {
        assert Spell(l)[|Head(l)|..] == UniqueId(l.f, l.num) && Spell(m)[|Head(l)|..] == UniqueId(m.f, m.num);
        UniqueIdDecodes(l.f, l.num, m.f, m.num);
      } else if l.FunctionL? && m.FunctionL? {
        assert Spell(l)[|Head(l)|..] == l.f && Spell(m)[|Head(l)|..] == m.f;
      } else if l.GlobalL? && m.GlobalL? {
        assert Spell(l)[|Head(l)|..] == l.name && Spell(m)[|Head(l)|..] == m.name;
      }
    }
  }

  /** Expressions, as far as they matter to labels: numbers and characters use none, parentheses are implicit. */
  datatype Expr =
    | Plain
    | Text
    | Name(x: string)
    | Call(callee: string, args: seq<Expr>)
    | Assign(target: Expr, value: Expr)

  datatype Stmt =
    | Do(e: Expr)
    | Return(result: Option<Expr>)
    | Local(x: string, init: Option<Expr>)
    | If(cond: Expr, yes: Stmt, no: Option<Stmt>)
    | While(cond: Expr, body: Stmt)
    | Break
    | Block(stmts: seq<Stmt>)

  datatype Decl = Global(name: string) | Prototype(name: string) | Function(name: string, params: seq<string>, body: Stmt)

  /** The names known inside function f; `symbols` are all names declared outside functions. */
  datatype Env = Env(f: string, params: set<string>, locals: set<string>, functions: set<string>, symbols: set<string>)

  datatype Meaning = InFrame | OfFunction | OfGlobal | Unknown

  function Lookup(env: Env, x: string): Meaning {
    if x in env.locals || x in env.params then InFrame
    else if x in env.functions then OfFunction
    else if x in env.symbols then OfGlobal
    else Unknown
  }

  /** The names known behind a statement; a block forgets its own. */
  function After(env: Env, s: Stmt): Env
    decreases s
  {
    match s
    case Local(x, _) => env.(locals := env.locals + {x})
    case If(_, yes, no) => if no.Some? then After(After(env, yes), no.value) else After(env, yes)
    case While(_, body) => After(env, body)
    case _ => env
  }

  lemma {:induction false} AfterKeeps(env: Env, s: Stmt)
    ensures After(env, s) == env.(locals := After(env, s).locals)
    decreases s
  {
    match s
    case If(_, yes, no) =>
      AfterKeeps(env, yes);
      if no.Some? { AfterKeeps(After(env, yes), no.value); }
    case While(_, body) => AfterKeeps(env, body);
    case _ =>
  }

  /** Is every name known, and every called name a function's? The compiler stops where not. */
  predicate Resolves(e: Expr, env: Env)
    decreases e
  {
    match e
    case Plain => true
    case Text => true
    case Name(x) => !Lookup(env, x).Unknown?
    case Call(f, args) => Lookup(env, f).OfFunction? && forall i :: 0 <= i < |args| ==> Resolves(args[i], env)
    case Assign(t, v) => Resolves(t, env) && Resolves(v, env)
  }

  predicate OptResolves(e: Option<Expr>, env: Env) { e.Some? ==> Resolves(e.value, env) }

  predicate StmtResolves(s: Stmt, env: Env)
    decreases s, 1
  {
    match s
    case Do(e) => Resolves(e, env)
    case Return(e) => OptResolves(e, env)
    case Local(x, init) => OptResolves(init, After(env, s))
    case If(c, yes, no) =>
      Resolves(c, env) && StmtResolves(yes, env) && (no.Some? ==> StmtResolves(no.value, After(env, yes)))
    case While(c, body) => Resolves(c, env) && StmtResolves(body, env)
    case Break => true
    case Block(body) => AllResolve(body, env)
  }

  predicate AllResolve(body: seq<Stmt>, env: Env)
    decreases body, 0
  {
    body != [] ==> StmtResolves(body[0], env) && AllResolve(body[1..], After(env, body[0]))
  }

  /** Is every break inside a loop? */
  predicate BreaksInside(s: Stmt, inLoop: bool) {
    match s
    case If(_, yes, no) => BreaksInside(yes, inLoop) && (no.Some? ==> BreaksInside(no.value, inLoop))
    case While(_, body) => BreaksInside(body, true)
    case Break => inLoop
    case Block(body) => forall i :: 0 <= i < |body| ==> BreaksInside(body[i], inLoop)
    case _ => true
  }

  /** The numbers an expression uses up, one for each string literal. */
  function ExprCount(e: Expr): nat {
    match e
    case Text => 1
    case Call(_, args) => ArgsCount(args)
    case Assign(t, v) => ExprCount(t) + ExprCount(v)
    case _ => 0
  }

  function ArgsCount(args: seq<Expr>): nat {
    if args == [] then 0 else ArgsCount(args[..|args| - 1]) + ExprCount(args[|args| - 1])
  }

  function OptCount(e: Option<Expr>): nat { if e.Some? then ExprCount(e.value) else 0 }

  /** The numbers a statement uses up. */
  function Count(s: Stmt): nat {
    match s
    case Do(e) => ExprCount(e)
    case Return(e) => OptCount(e)
    case Local(_, init) => OptCount(init)
    case If(c, yes, no) => 1 + ExprCount(c) + Count(yes) + if no.Some? then Count(no.value) else 0
    case While(c, body) => 1 + ExprCount(c) + Count(body)
    case Break => 0
    case Block(body) => CountAll(body)
  }

  function CountAll(body: seq<Stmt>): nat {
    if body == [] then 0 else Count(body[0]) + CountAll(body[1..])
  }

  type Items = seq<Item<Label>>

  /** The label lines of an expression in the code, with strings numbered from c. */
  function ExprOut(e: Expr, env: Env, c: nat): Items
    decreases e
  {
    match e
    case Plain => []
    case Text => [Ref(Numbered(StringL, env.f, c))]
    case Name(x) => if Lookup(env, x).OfGlobal? then [Ref(GlobalL(x))] else []
    case Call(f, args) => ArgsOut(args, env, c) + [Ref(FunctionL(f))]
    case Assign(t, v) => ExprOut(t, env, c) + ExprOut(v, env, c + ExprCount(t))
  }

  function ArgsOut(args: seq<Expr>, env: Env, c: nat): Items
    decreases args
  {
    if args == [] then []
    else
      var n := |args| - 1;
      ArgsOut(args[..n], env, c) + ExprOut(args[n], env, c + ArgsCount(args[..n]))
  }

  /** The string literals of an expression. */
  function ExprStrings(e: Expr, f: string, c: nat): Items
    decreases e
  {
    match e
    case Text => [Def(Numbered(StringL, f, c))]
    case Call(_, args) => ArgsStrings(args, f, c)
    case Assign(t, v) => ExprStrings(t, f, c) + ExprStrings(v, f, c + ExprCount(t))
    case _ => []
  }

  function ArgsStrings(args: seq<Expr>, f: string, c: nat): Items
    decreases args
  {
    if args == [] then []
    else
      var n := |args| - 1;
      ArgsStrings(args[..n], f, c) + ExprStrings(args[n], f, c + ArgsCount(args[..n]))
  }

  function OptOut(e: Option<Expr>, env: Env, c: nat): Items { if e.Some? then ExprOut(e.value, env, c) else [] }

  function OptStrings(e: Option<Expr>, f: string, c: nat): Items { if e.Some? then ExprStrings(e.value, f, c) else [] }

  /** The label lines of a statement, in order, with numbers from c. */
  function Out(s: Stmt, env: Env, c: nat, brk: Label): Items
    decreases s, 1
  {
    match s
    case Do(e) => ExprOut(e, env, c)
    case Return(e) => OptOut(e, env, c)
    case Local(_, init) => OptOut(init, After(env, s), c)
    case If(cond, yes, no) =>
      var c1 := c + 1 + ExprCount(cond);
      ExprOut(cond, env, c + 1) + [Ref(Numbered(ElseL, env.f, c))]
      + Out(yes, env, c1, brk)
      + [Ref(Numbered(EndIfL, env.f, c)), Def(Numbered(ElseL, env.f, c))]
      + (if no.Some? then Out(no.value, After(env, yes), c1 + Count(yes), brk) else [])
      + [Def(Numbered(EndIfL, env.f, c))]
    case While(cond, body) =>
      [Def(Numbered(WhileL, env.f, c))] + ExprOut(cond, env, c + 1) + [Ref(Numbered(EndWhileL, env.f, c))]
      + Out(body, env, c + 1 + ExprCount(cond), Numbered(EndWhileL, env.f, c))
      + [Ref(Numbered(WhileL, env.f, c)), Def(Numbered(EndWhileL, env.f, c))]
    case Break => [Ref(brk)]
    case Block(body) => OutAll(body, env, c, brk)
  }

  function OutAll(body: seq<Stmt>, env: Env, c: nat, brk: Label): Items
    decreases body, 0
  {
    if body == [] then [] else Out(body[0], env, c, brk) + OutAll(body[1..], After(env, body[0]), c + Count(body[0]), brk)
  }

  /** Lines of a loop with an exit: the last jump goes back to the label in front, the failed test to the label behind. */
  predicate Loops(ls: Items, test: Items, inside: Items, exit: Label) {
    var n, a := |ls|, |test|;
    && n == a + 4 + |inside|
    && ls[1..1 + a] == test && ls[2 + a..n - 2] == inside
    && ls[0].Def? && ls[n - 1] == Def(exit) && ls[0] != ls[n - 1]
    && ls[n - 2] == Ref(ls[0].l) && ls[1 + a] == Ref(exit)
  }

  /** The lines of a while, to whose exit the breaks of its body go. */
  lemma LoopShape(cond: Expr, body: Stmt, env: Env, c: nat, brk: Label) returns (exit: Label)
    ensures Loops(Out(While(cond, body), env, c, brk), ExprOut(cond, env, c + 1), Out(body, env, c + 1 + ExprCount(cond), exit), exit)
    ensures Out(Break, env, c, exit) == [Ref(exit)]
  {
    hide ExprOut, Out, Loops;
    exit := Numbered(EndWhileL, env.f, c);
    var test, inside := ExprOut(cond, env, c + 1), Out(body, env, c + 1 + ExprCount(cond), exit);
    OutLines(cond, body, None, env, c, brk);
    JoinedLoop(Numbered(WhileL, env.f, c), test, exit, inside);
  }

  lemma OutLines(cond: Expr, body: Stmt, no: Option<Stmt>, env: Env, c: nat, brk: Label)
    ensures var exit := Numbered(EndWhileL, env.f, c);
      Out(While(cond, body), env, c, brk) == [Def(Numbered(WhileL, env.f, c))] + ExprOut(cond, env, c + 1) + [Ref(exit)]
        + Out(body, env, c + 1 + ExprCount(cond), exit) + [Ref(Numbered(WhileL, env.f, c)), Def(exit)]
    ensures var c1 := c + 1 + ExprCount(cond);
      Out(If(cond, body, no), env, c, brk) == ExprOut(cond, env, c + 1) + [Ref(Numbered(ElseL, env.f, c))] + Out(body, env, c1, brk)
        + [Ref(Numbered(EndIfL, env.f, c)), Def(Numbered(ElseL, env.f, c))]
        + (if no.Some? then Out(no.value, After(env, body), c1 + Count(body), brk) else []) + [Def(Numbered(EndIfL, env.f, c))]
    ensures forall l: Label :: Out(Break, env, c, l) == [Ref(l)]
  {
    hide ExprOut, After, Count;
  }

  lemma JoinedLoop(top: Label, test: Items, exit: Label, inside: Items)
    requires top != exit
    ensures Loops([Def(top)] + test + [Ref(exit)] + inside + [Ref(top), Def(exit)], test, inside, exit)
  {
  }

  /**
    Lines that branch: a failed test goes behind the first branch and the jump at its end, and that jump goes behind the
    second branch.
   */
  predicate Branches(ls: Items, test: Items, first: Items, second: Items) {
    var a, b, n := |test|, |test| + 1 + |first|, |ls|;
    && n == b + 3 + |second|
    && ls[..a] == test && ls[a + 1..b] == first && ls[b + 2..n - 1] == second
    && ls[b + 1].Def? && ls[n - 1].Def? && ls[b + 1] != ls[n - 1]
    && ls[a] == Ref(ls[b + 1].l) && ls[b] == Ref(ls[n - 1].l)
  }

  /** The lines of an if; both branches are within the same loop. */
  lemma BranchShape(cond: Expr, yes: Stmt, no: Option<Stmt>, env: Env, c: nat, brk: Label)
    ensures var c1 := c + 1 + ExprCount(cond);
      Branches(Out(If(cond, yes, no), env, c, brk), ExprOut(cond, env, c + 1), Out(yes, env, c1, brk),
        if no.Some? then Out(no.value, After(env, yes), c1 + Count(yes), brk) else [])
  {
    hide ExprOut, After, Count, Out, Branches;
    OutLines(cond, yes, no, env, c, brk);
    var c1 := c + 1 + ExprCount(cond);
    var second := if no.Some? then Out(no.value, After(env, yes), c1 + Count(yes), brk) else [];
    var orElse, end := Numbered(ElseL, env.f, c), Numbered(EndIfL, env.f, c);
    Joined(ExprOut(cond, env, c + 1), orElse, Out(yes, env, c1, brk), end, second);
  }

  lemma Joined(test: Items, orElse: Label, first: Items, end: Label, second: Items)
    requires orElse != end
    ensures Branches(test + [Ref(orElse)] + first + [Ref(end), Def(orElse)] + second + [Def(end)], test, first, second)
  {
  }

  /** The string literals of a statement, in order. */
  function Strings(s: Stmt, f: string, c: nat): Items {
    match s
    case Do(e) => ExprStrings(e, f, c)
    case Return(e) => OptStrings(e, f, c)
    case Local(_, init) => OptStrings(init, f, c)
    case If(cond, yes, no) =>
      var c1 := c + 1 + ExprCount(cond);
      ExprStrings(cond, f, c + 1) + Strings(yes, f, c1)
      + if no.Some? then Strings(no.value, f, c1 + Count(yes)) else []
    case While(cond, body) => ExprStrings(cond, f, c + 1) + Strings(body, f, c + 1 + ExprCount(cond))
    case Break => []
    case Block(body) => StringsAll(body, f, c)
  }

  function StringsAll(body: seq<Stmt>, f: string, c: nat): Items {
    if body == [] then [] else Strings(body[0], f, c) + StringsAll(body[1..], f, c + Count(body[0]))
  }

  function Defs(items: Items): multiset<Label> {
    if items == [] then multiset{}
    else Defs(items[..|items| - 1]) + match items[|items| - 1] case Def(l) => multiset{l} case Ref(_) => multiset{}
  }

  function Uses(items: Items): set<Label> {
    if items == [] then {}
    else Uses(items[..|items| - 1]) + match items[|items| - 1] case Def(_) => {} case Ref(l) => {l}
  }

  lemma {:induction false} Concat(a: Items, b: Items)
    ensures Defs(a + b) == Defs(a) + Defs(b) && Uses(a + b) == Uses(a) + Uses(b)
    decreases |b|
  {
    if b == [] {
      assert a + b == a;
    } else {
      assert (a + b)[..|a + b| - 1] == a + b[..|b| - 1];
      Concat(a, b[..|b| - 1]);
    }
  }

  lemma One(x: Item<Label>)
    ensures Defs([x]) == if x.Def? then multiset{x.l} else multiset{}
    ensures Uses([x]) == if x.Ref? then {x.l} else {}
    ensures Defs([]) == multiset{} && Uses([]) == {}
  {
    assert [x][..0] == [];
  }

  /** Labels of function f with numbers in [lo, hi), each at most once. */
  ghost predicate Once(d: multiset<Label>, f: string, lo: nat, hi: nat) {
    && (forall l :: l in d ==> l.Numbered? && l.f == f && lo <= l.num < hi)
    && (forall l :: d[l] <= 1)
  }

  lemma OnceJoin(d: multiset<Label>, e: multiset<Label>, f: string, lo: nat, mid: nat, hi: nat)
    requires Once(d, f, lo, mid) && Once(e, f, mid, hi) && lo <= mid <= hi
    ensures Once(d + e, f, lo, hi)
  {
    forall l ensures (d + e)[l] <= 1 {
      assert !(l in d && l in e);
    }
  }

  /** An expression: its uses of strings are those it defines. */
  ghost predicate StringsProper(out: Items, strings: Items, f: string, lo: nat, hi: nat) {
    && Defs(out) == multiset{} && Uses(strings) == {}
    && Once(Defs(strings), f, lo, hi)
    && forall l :: l in Uses(out) && l.Numbered? ==> l in Defs(strings)
  }

  lemma StringsJoin(out1: Items, strings1: Items, out2: Items, strings2: Items, f: string, lo: nat, mid: nat, hi: nat)
    requires lo <= mid <= hi && StringsProper(out1, strings1, f, lo, mid) && StringsProper(out2, strings2, f, mid, hi)
    ensures StringsProper(out1 + out2, strings1 + strings2, f, lo, hi)
  {
    hide Defs, Uses, Once;
    Concat(out1, out2);
    Concat(strings1, strings2);
    OnceJoin(Defs(strings1), Defs(strings2), f, lo, mid, hi);
  }

  lemma NoStrings(f: string, c: nat)
    ensures StringsProper([], [], f, c, c)
  {
  }

  lemma UnnumberedUse(l: Label, f: string, c: nat)
    requires !l.Numbered?
    ensures StringsProper([Ref(l)], [], f, c, c)
  {
    One(Ref(l));
  }

  lemma {:induction false} ExprLabels(e: Expr, env: Env, c: nat)
    ensures StringsProper(ExprOut(e, env, c), ExprStrings(e, env.f, c), env.f, c, c + ExprCount(e))
    decreases e
  {
    hide StringsProper, Lookup, ArgsOut, ArgsStrings, ArgsCount, ExprOut, ExprStrings, ExprCount;
    NoStrings(env.f, c);
    ExprParts(e, env, c);
    match e
    case Plain =>
    case Text => TextLabels(env.f, c);
    case Name(x) => UnnumberedUse(GlobalL(x), env.f, c);
    case Call(f, args) =>
      ArgsLabels(args, env, c);
      CallLabels(f, args, env, c);
    case Assign(t, v) =>
      var mid := c + ExprCount(t);
      ExprLabels(t, env, c);
      ExprLabels(v, env, mid);
      StringsJoin(ExprOut(t, env, c), ExprStrings(t, env.f, c), ExprOut(v, env, mid), ExprStrings(v, env.f, mid),
        env.f, c, mid, c + ExprCount(e));
  }

  lemma ExprParts(e: Expr, env: Env, c: nat)
    ensures match e
      case Plain => ExprOut(e, env, c) == [] && ExprStrings(e, env.f, c) == [] && ExprCount(e) == 0
      case Text =>
        && ExprOut(e, env, c) == [Ref(Numbered(StringL, env.f, c))]
        && ExprStrings(e, env.f, c) == [Def(Numbered(StringL, env.f, c))] && ExprCount(e) == 1
      case Name(x) =>
        && (ExprOut(e, env, c) == [] || ExprOut(e, env, c) == [Ref(GlobalL(x))])
        && ExprStrings(e, env.f, c) == [] && ExprCount(e) == 0
      case Call(f, args) =>
        && ExprOut(e, env, c) == ArgsOut(args, env, c) + [Ref(FunctionL(f))]
        && ExprStrings(e, env.f, c) == ArgsStrings(args, env.f, c) && ExprCount(e) == ArgsCount(args)
      case Assign(t, v) =>
        && ExprOut(e, env, c) == ExprOut(t, env, c) + ExprOut(v, env, c + ExprCount(t))
        && ExprStrings(e, env.f, c) == ExprStrings(t, env.f, c) + ExprStrings(v, env.f, c + ExprCount(t))
        && ExprCount(e) == ExprCount(t) + ExprCount(v)
  {
    hide ArgsOut, ArgsStrings, ArgsCount;
  }

  lemma CallLabels(f: string, args: seq<Expr>, env: Env, c: nat)
    requires StringsProper(ArgsOut(args, env, c), ArgsStrings(args, env.f, c), env.f, c, c + ArgsCount(args))
    ensures StringsProper(ArgsOut(args, env, c) + [Ref(FunctionL(f))], ArgsStrings(args, env.f, c), env.f, c, c + ArgsCount(args))
  {
    hide StringsProper, ArgsOut, ArgsStrings, ArgsCount;
    var end := c + ArgsCount(args);
    UnnumberedUse(FunctionL(f), env.f, end);
    StringsJoin(ArgsOut(args, env, c), ArgsStrings(args, env.f, c), [Ref(FunctionL(f))], [], env.f, c, end, end);
    assert ArgsStrings(args, env.f, c) + [] == ArgsStrings(args, env.f, c);
  }

  lemma TextLabels(f: string, c: nat)
    ensures StringsProper([Ref(Numbered(StringL, f, c))], [Def(Numbered(StringL, f, c))], f, c, c + 1)
  {
    One(Ref(Numbered(StringL, f, c)));
    One(Def(Numbered(StringL, f, c)));
  }

  lemma {:induction false} ArgsLabels(args: seq<Expr>, env: Env, c: nat)
    ensures StringsProper(ArgsOut(args, env, c), ArgsStrings(args, env.f, c), env.f, c, c + ArgsCount(args))
    decreases args
  {
    hide StringsProper, ExprOut, ExprStrings, ExprCount;
    if args == [] {
      NoStrings(env.f, c);
    } else {
      var n := |args| - 1;
      var mid := c + ArgsCount(args[..n]);
      ArgsLabels(args[..n], env, c);
      ExprLabels(args[n], env, mid);
      StringsJoin(ArgsOut(args[..n], env, c), ArgsStrings(args[..n], env.f, c), ExprOut(args[n], env, mid), ExprStrings(args[n], env.f, mid),
        env.f, c, mid, c + ArgsCount(args));
    }
  }

  lemma OptLabels(e: Option<Expr>, env: Env, c: nat)
    ensures StringsProper(OptOut(e, env, c), OptStrings(e, env.f, c), env.f, c, c + OptCount(e))
  {
    hide StringsProper;
    if e.Some? { ExprLabels(e.value, env, c); } else { NoStrings(env.f, c); }
  }

  lemma OnceNone(f: string, c: nat)
    ensures Once(multiset{}, f, c, c)
  {
  }

  lemma OnceOne(l: Label)
    requires l.Numbered?
    ensures Once(multiset{l}, l.f, l.num, l.num + 1)
  {
  }

  /** All labels that a statement defines, in its code and among its strings. */
  ghost function AllDefs(s: Stmt, env: Env, c: nat, brk: Label): multiset<Label> {
    Defs(Out(s, env, c, brk)) + Defs(Strings(s, env.f, c))
  }

  ghost function AllDefsOf(body: seq<Stmt>, env: Env, c: nat, brk: Label): multiset<Label> {
    Defs(OutAll(body, env, c, brk)) + Defs(StringsAll(body, env.f, c))
  }

  /** Each label once, numbers within the statement's own range, and every use of a numbered label has its definition. */
  ghost predicate Proper(out: Items, d: multiset<Label>, f: string, lo: nat, hi: nat, brk: Label, mayBreak: bool) {
    && Once(d, f, lo, hi)
    && forall l :: l in Uses(out) && l.Numbered? ==> l in d || (mayBreak && l == brk)
  }

  lemma ExprProper(out: Items, strings: Items, f: string, lo: nat, hi: nat, brk: Label, mayBreak: bool)
    requires StringsProper(out, strings, f, lo, hi)
    ensures Proper(out, Defs(out) + Defs(strings), f, lo, hi, brk, mayBreak)
  {
    hide Defs, Uses, Once;
    assert Defs(out) + Defs(strings) == Defs(strings);
  }

  lemma {:induction false} StatementLabels(s: Stmt, env: Env, c: nat, brk: Label, inLoop: bool)
    requires BreaksInside(s, inLoop)
    ensures Proper(Out(s, env, c, brk), AllDefs(s, env, c, brk), env.f, c, c + Count(s), brk, inLoop)
    decreases s
  {
    hide Defs, Uses, Once, Proper, StringsProper, ExprOut, ExprStrings;
    match s
    case Do(e) =>
      ExprLabels(e, env, c);
      ExprProper(ExprOut(e, env, c), ExprStrings(e, env.f, c), env.f, c, c + Count(s), brk, inLoop);
    case Return(e) =>
      OptLabels(e, env, c);
      ExprProper(OptOut(e, env, c), OptStrings(e, env.f, c), env.f, c, c + Count(s), brk, inLoop);
    case Local(x, init) =>
      OptLabels(init, After(env, s), c);
      ExprProper(OptOut(init, After(env, s), c), OptStrings(init, env.f, c), env.f, c, c + Count(s), brk, inLoop);
    case If(cond, yes, no) =>
      IfLabels(s, env, c, brk, inLoop);
    case While(cond, body) =>
      WhileLabels(s, env, c, brk, inLoop);
    case Break =>
      BreakLabels(env.f, c, brk, inLoop);
    case Block(body) =>
      BlockLabels(body, env, c, brk, inLoop);
  }

  lemma BreakLabels(f: string, c: nat, brk: Label, inLoop: bool)
    requires inLoop
    ensures Proper([Ref(brk)], Defs([Ref(brk)]) + Defs([]), f, c, c, brk, inLoop)
  {
    hide Once;
    One(Ref(brk));
    OnceNone(f, c);
    assert Defs([Ref(brk)]) + Defs([]) == multiset{};
  }

  lemma {:induction false} BlockLabels(body: seq<Stmt>, env: Env, c: nat, brk: Label, inLoop: bool)
    requires forall i :: 0 <= i < |body| ==> BreaksInside(body[i], inLoop)
    ensures Proper(OutAll(body, env, c, brk), AllDefsOf(body, env, c, brk), env.f, c, c + CountAll(body), brk, inLoop)
    decreases body
  {
    hide Defs, Uses, Once, Out, Strings, Proper, Count, BreaksInside, After;
    if body == [] {
      NothingProper(env.f, c, brk, inLoop);
    } else {
      var c1 := c + Count(body[0]);
      var env1 := After(env, body[0]);
      AfterKeeps(env, body[0]);
      StatementLabels(body[0], env, c, brk, inLoop);
      BlockLabels(body[1..], env1, c1, brk, inLoop);
      ProperJoin(Out(body[0], env, c, brk), Strings(body[0], env.f, c), OutAll(body[1..], env1, c1, brk), StringsAll(body[1..], env.f, c1),
        env.f, c, c1, c + CountAll(body), brk, inLoop);
    }
  }

  lemma ProperJoin(
      out1: Items, strings1: Items, out2: Items, strings2: Items,
      f: string, lo: nat, mid: nat, hi: nat, brk: Label, mayBreak: bool)
    requires lo <= mid <= hi
    requires Proper(out1, Defs(out1) + Defs(strings1), f, lo, mid, brk, mayBreak)
    requires Proper(out2, Defs(out2) + Defs(strings2), f, mid, hi, brk, mayBreak)
    ensures Proper(out1 + out2, Defs(out1 + out2) + Defs(strings1 + strings2), f, lo, hi, brk, mayBreak)
  {
    hide Defs, Uses, Once;
    Concat(out1, out2);
    Concat(strings1, strings2);
    var d, e := Defs(out1) + Defs(strings1), Defs(out2) + Defs(strings2);
    OnceJoin(d, e, f, lo, mid, hi);
    assert Defs(out1 + out2) + Defs(strings1 + strings2) == d + e;
  }

  lemma OwnLabels(k: Kind, h: Kind, f: string, c: nat)
    requires k != h
    ensures Once(multiset{Numbered(k, f, c), Numbered(h, f, c)}, f, c, c + 1)
  {
  }

  /** An if with its parts abstract: three pieces of code, and the strings among them. */
  lemma IfPieces(cond: Items, yes: Items, no: Items, f: string, c: nat)
    ensures var all := cond + [Ref(Numbered(ElseL, f, c))] + yes
        + [Ref(Numbered(EndIfL, f, c)), Def(Numbered(ElseL, f, c))] + no + [Def(Numbered(EndIfL, f, c))];
      && Defs(all) == Defs(cond) + Defs(yes) + Defs(no) + multiset{Numbered(ElseL, f, c), Numbered(EndIfL, f, c)}
      && Uses(all) == Uses(cond) + Uses(yes) + Uses(no) + {Numbered(ElseL, f, c), Numbered(EndIfL, f, c)}
  {
    hide Defs, Uses;
    var else_, end := Numbered(ElseL, f, c), Numbered(EndIfL, f, c);
    assert [Ref(end)] + [Def(else_)] == [Ref(end), Def(else_)];
    One(Ref(else_));
    One(Ref(end));
    One(Def(else_));
    One(Def(end));
    Concat([Ref(end)], [Def(else_)]);
    Concat(cond, [Ref(else_)]);
    Concat(cond + [Ref(else_)], yes);
    Concat(cond + [Ref(else_)] + yes, [Ref(end), Def(else_)]);
    Concat(cond + [Ref(else_)] + yes + [Ref(end), Def(else_)], no);
    Concat(cond + [Ref(else_)] + yes + [Ref(end), Def(else_)] + no, [Def(end)]);
  }

  lemma IfShape(s: Stmt, env: Env, c: nat, brk: Label)
    requires s.If?
    ensures var c1 := c + 1 + ExprCount(s.cond); var c2 := c1 + Count(s.yes); var f := env.f;
      && Out(s, env, c, brk) == ExprOut(s.cond, env, c + 1) + [Ref(Numbered(ElseL, f, c))] + Out(s.yes, env, c1, brk)
        + [Ref(Numbered(EndIfL, f, c)), Def(Numbered(ElseL, f, c))]
        + (if s.no.Some? then Out(s.no.value, After(env, s.yes), c2, brk) else []) + [Def(Numbered(EndIfL, f, c))]
      && Strings(s, f, c) == ExprStrings(s.cond, f, c + 1) + Strings(s.yes, f, c1)
        + (if s.no.Some? then Strings(s.no.value, f, c2) else [])
      && Count(s) == 1 + ExprCount(s.cond) + Count(s.yes) + if s.no.Some? then Count(s.no.value) else 0
  {
    hide ExprOut, ExprStrings, ExprCount, After, OutAll, StringsAll;
  }

  lemma {:induction false} IfLabels(s: Stmt, env: Env, c: nat, brk: Label, inLoop: bool)
    requires s.If? && BreaksInside(s, inLoop)
    ensures Proper(Out(s, env, c, brk), AllDefs(s, env, c, brk), env.f, c, c + Count(s), brk, inLoop)
    decreases s, 0
  {
    hide Defs, Uses, Once, ExprOut, ExprStrings, Out, Strings, Proper, StringsProper, After;
    IfShape(s, env, c, brk);
    AfterKeeps(env, s.yes);
    var f, c1, env1 := env.f, c + 1 + ExprCount(s.cond), After(env, s.yes);
    var c2 := c1 + Count(s.yes);
    var no := if s.no.Some? then Out(s.no.value, env1, c2, brk) else [];
    var noStrings := if s.no.Some? then Strings(s.no.value, f, c2) else [];
    ExprLabels(s.cond, env, c + 1);
    StatementLabels(s.yes, env, c1, brk, inLoop);
    if s.no.Some? {
      StatementLabels(s.no.value, env1, c2, brk, inLoop);
    } else {
      NothingProper(f, c2, brk, inLoop);
    }
    IfProper(ExprOut(s.cond, env, c + 1), Out(s.yes, env, c1, brk), no,
      ExprStrings(s.cond, f, c + 1), Strings(s.yes, f, c1), noStrings, f, c, c1, c2, c + Count(s), brk, inLoop);
  }

  lemma NothingProper(f: string, c: nat, brk: Label, mayBreak: bool)
    ensures Proper([], Defs([]) + Defs([]), f, c, c, brk, mayBreak)
  {
  }

  lemma IfProper(
      cond: Items, yes: Items, no: Items, sc: Items, sy: Items, sn: Items,
      f: string, c: nat, c1: nat, c2: nat, hi: nat, brk: Label, mayBreak: bool)
    requires c < c1 <= c2 <= hi && StringsProper(cond, sc, f, c + 1, c1)
    requires Proper(yes, Defs(yes) + Defs(sy), f, c1, c2, brk, mayBreak)
    requires Proper(no, Defs(no) + Defs(sn), f, c2, hi, brk, mayBreak)
    ensures var all := cond + [Ref(Numbered(ElseL, f, c))] + yes
        + [Ref(Numbered(EndIfL, f, c)), Def(Numbered(ElseL, f, c))] + no + [Def(Numbered(EndIfL, f, c))];
      Proper(all, Defs(all) + Defs(sc + sy + sn), f, c, hi, brk, mayBreak)
  {
    hide Defs, Uses, Once;
    IfPieces(cond, yes, no, f, c);
    Concat(sc, sy);
    Concat(sc + sy, sn);
    var own := multiset{Numbered(ElseL, f, c), Numbered(EndIfL, f, c)};
    OwnLabels(ElseL, EndIfL, f, c);
    OnceJoin(own, Defs(sc), f, c, c + 1, c1);
    OnceJoin(own + Defs(sc), Defs(yes) + Defs(sy), f, c, c1, c2);
    OnceJoin(own + Defs(sc) + (Defs(yes) + Defs(sy)), Defs(no) + Defs(sn), f, c, c2, hi);
    Rearranged(own, Defs(yes), Defs(no), Defs(sc), Defs(sy), Defs(sn));
  }

  lemma Rearranged(own: multiset<Label>, y: multiset<Label>, n: multiset<Label>, dc: multiset<Label>, sy: multiset<Label>, sn: multiset<Label>)
    ensures (multiset{} + y + n + own) + ((dc + sy) + sn) == own + dc + (y + sy) + (n + sn)
  {
  }

  lemma WhilePieces(cond: Items, body: Items, f: string, c: nat)
    ensures var top, end := Numbered(WhileL, f, c), Numbered(EndWhileL, f, c);
      var all := [Def(top)] + cond + [Ref(end)] + body + [Ref(top), Def(end)];
      && Defs(all) == Defs(cond) + Defs(body) + multiset{top, end}
      && Uses(all) == Uses(cond) + Uses(body) + {top, end}
  {
    hide Defs, Uses;
    var top, end := Numbered(WhileL, f, c), Numbered(EndWhileL, f, c);
    assert [Ref(top)] + [Def(end)] == [Ref(top), Def(end)];
    One(Def(top));
    One(Ref(top));
    One(Ref(end));
    One(Def(end));
    Concat([Ref(top)], [Def(end)]);
    Concat([Def(top)], cond);
    Concat([Def(top)] + cond, [Ref(end)]);
    Concat([Def(top)] + cond + [Ref(end)], body);
    Concat([Def(top)] + cond + [Ref(end)] + body, [Ref(top), Def(end)]);
  }

  lemma {:induction false} WhileLabels(s: Stmt, env: Env, c: nat, brk: Label, inLoop: bool)
    requires s.While? && BreaksInside(s, inLoop)
    ensures Proper(Out(s, env, c, brk), AllDefs(s, env, c, brk), env.f, c, c + Count(s), brk, inLoop)
    decreases s, 0
  {
    hide Defs, Uses, Once, ExprOut, ExprStrings;
    var f, c1 := env.f, c + 1 + ExprCount(s.cond);
    var end := Numbered(EndWhileL, f, c);
    ExprLabels(s.cond, env, c + 1);
    StatementLabels(s.body, env, c1, end, true);
    WhilePieces(ExprOut(s.cond, env, c + 1), Out(s.body, env, c1, end), f, c);
    Concat(ExprStrings(s.cond, f, c + 1), Strings(s.body, f, c1));
    var own := multiset{Numbered(WhileL, f, c), end};
    var dc, db := Defs(ExprStrings(s.cond, f, c + 1)), AllDefs(s.body, env, c1, end);
    OwnLabels(WhileL, EndWhileL, f, c);
    OnceJoin(own, dc, f, c, c + 1, c1);
    OnceJoin(own + dc, db, f, c, c1, c + Count(s));
    assert AllDefs(s, env, c, brk) == own + dc + db;
  }

  // ----- uses of names declared outside functions -----

  function ExprCalls(e: Expr): set<string> {
    match e
    case Call(f, args) => {f} + ArgsCalls(args)
    case Assign(t, v) => ExprCalls(t) + ExprCalls(v)
    case _ => {}
  }

  function ArgsCalls(args: seq<Expr>): set<string> {
    if args == [] then {} else ArgsCalls(args[..|args| - 1]) + ExprCalls(args[|args| - 1])
  }

  function OptCalls(e: Option<Expr>): set<string> { if e.Some? then ExprCalls(e.value) else {} }

  /** The functions that a statement calls. */
  function Calls(s: Stmt): set<string> {
    match s
    case Do(e) => ExprCalls(e)
    case Return(e) => OptCalls(e)
    case Local(_, init) => OptCalls(init)
    case If(c, yes, no) => ExprCalls(c) + Calls(yes) + if no.Some? then Calls(no.value) else {}
    case While(c, body) => ExprCalls(c) + Calls(body)
    case Break => {}
    case Block(body) => AllCalls(body)
  }

  function AllCalls(body: seq<Stmt>): set<string> {
    if body == [] then {} else Calls(body[0]) + AllCalls(body[1..])
  }

  /** The names that code uses: those of the functions called, and of global variables. */
  ghost predicate Outside(out: Items, calls: set<string>, functions: set<string>, symbols: set<string>) {
    && (forall g :: FunctionL(g) in Uses(out) <==> g in calls)
    && (forall x :: GlobalL(x) in Uses(out) ==> x in symbols && x !in functions)
  }

  lemma OutsideJoin(a: Items, b: Items, ca: set<string>, cb: set<string>, functions: set<string>, symbols: set<string>)
    requires Outside(a, ca, functions, symbols) && Outside(b, cb, functions, symbols)
    ensures Outside(a + b, ca + cb, functions, symbols)
  {
    hide Uses, Defs;
    Concat(a, b);
  }

  lemma OutsideOne(x: Item<Label>, functions: set<string>, symbols: set<string>)
    requires x.Def? || x.l.Numbered?
    ensures Outside([x], {}, functions, symbols) && Outside([], {}, functions, symbols)
  {
    One(x);
  }

  lemma OutsideCall(f: string, functions: set<string>, symbols: set<string>)
    ensures Outside([Ref(FunctionL(f))], {f}, functions, symbols)
  {
    One(Ref(FunctionL(f)));
  }

  lemma OutsideName(x: string, functions: set<string>, symbols: set<string>)
    requires x in symbols && x !in functions
    ensures Outside([Ref(GlobalL(x))], {}, functions, symbols)
  {
    One(Ref(GlobalL(x)));
  }

  lemma {:induction false} ExprOutside(e: Expr, env: Env, c: nat)
    ensures Outside(ExprOut(e, env, c), ExprCalls(e), env.functions, env.symbols)
    decreases e
  {
    hide Outside;
    OutsideOne(Ref(Numbered(StringL, env.f, c)), env.functions, env.symbols);
    match e
    case Plain =>
    case Text =>
    case Name(x) => if Lookup(env, x).OfGlobal? { OutsideName(x, env.functions, env.symbols); }
    case Call(f, args) =>
      ArgsOutside(args, env, c);
      OutsideCall(f, env.functions, env.symbols);
      OutsideJoin(ArgsOut(args, env, c), [Ref(FunctionL(f))], ArgsCalls(args), {f}, env.functions, env.symbols);
      assert ArgsCalls(args) + {f} == {f} + ArgsCalls(args);
    case Assign(t, v) =>
      ExprOutside(t, env, c);
      ExprOutside(v, env, c + ExprCount(t));
      OutsideJoin(ExprOut(t, env, c), ExprOut(v, env, c + ExprCount(t)), ExprCalls(t), ExprCalls(v), env.functions, env.symbols);
  }

  lemma {:induction false} ArgsOutside(args: seq<Expr>, env: Env, c: nat)
    ensures Outside(ArgsOut(args, env, c), ArgsCalls(args), env.functions, env.symbols)
    decreases args
  {
    hide Outside, ExprOut, ExprCalls;
    if args == [] {
      OutsideOne(Ref(Numbered(StringL, env.f, c)), env.functions, env.symbols);
    } else {
      var n := |args| - 1;
      var mid := c + ArgsCount(args[..n]);
      ArgsOutside(args[..n], env, c);
      ExprOutside(args[n], env, mid);
      OutsideJoin(ArgsOut(args[..n], env, c), ExprOut(args[n], env, mid), ArgsCalls(args[..n]), ExprCalls(args[n]), env.functions, env.symbols);
    }
  }

  lemma OptOutside(e: Option<Expr>, env: Env, c: nat)
    ensures Outside(OptOut(e, env, c), OptCalls(e), env.functions, env.symbols)
  {
    hide Outside;
    OutsideOne(Ref(Numbered(StringL, env.f, c)), env.functions, env.symbols);
    if e.Some? { ExprOutside(e.value, env, c); }
  }

  lemma {:induction false} StatementOutside(s: Stmt, env: Env, c: nat, brk: Label, inLoop: bool)
    requires BreaksInside(s, inLoop) && (inLoop ==> brk.Numbered?)
    ensures Outside(Out(s, env, c, brk), Calls(s), env.functions, env.symbols)
    decreases s, 1
  {
    hide Outside, ExprOut;
    match s
    case Do(e) => ExprOutside(e, env, c);
    case Return(e) => OptOutside(e, env, c);
    case Local(x, init) => OptOutside(init, After(env, s), c);
    case If(_, _, _) => IfOutside(s, env, c, brk, inLoop);
    case While(_, _) => WhileOutside(s, env, c, brk, inLoop);
    case Break => OutsideOne(Ref(brk), env.functions, env.symbols);
    case Block(body) => BlockOutside(body, env, c, brk, inLoop);
  }

  lemma {:induction false} BlockOutside(body: seq<Stmt>, env: Env, c: nat, brk: Label, inLoop: bool)
    requires (forall i :: 0 <= i < |body| ==> BreaksInside(body[i], inLoop)) && (inLoop ==> brk.Numbered?)
    ensures Outside(OutAll(body, env, c, brk), AllCalls(body), env.functions, env.symbols)
    decreases body
  {
    hide Outside, Out, Calls, BreaksInside, After;
    if body == [] {
      OutsideOne(Def(brk), env.functions, env.symbols);
    } else {
      AfterKeeps(env, body[0]);
      StatementOutside(body[0], env, c, brk, inLoop);
      BlockOutside(body[1..], After(env, body[0]), c + Count(body[0]), brk, inLoop);
      OutsideJoin(Out(body[0], env, c, brk), OutAll(body[1..], After(env, body[0]), c + Count(body[0]), brk),
        Calls(body[0]), AllCalls(body[1..]), env.functions, env.symbols);
    }
  }

  lemma {:induction false} IfOutside(s: Stmt, env: Env, c: nat, brk: Label, inLoop: bool)
    requires s.If? && BreaksInside(s, inLoop) && (inLoop ==> brk.Numbered?)
    ensures Outside(Out(s, env, c, brk), Calls(s), env.functions, env.symbols)
    decreases s, 0
  {
    hide Outside, Out, ExprOut, ExprCalls, After;
    IfShape(s, env, c, brk);
    AfterKeeps(env, s.yes);
    var fs, gs, c1 := env.functions, env.symbols, c + 1 + ExprCount(s.cond);
    var else_, end := Numbered(ElseL, env.f, c), Numbered(EndIfL, env.f, c);
    var a, yes := ExprOut(s.cond, env, c + 1), Out(s.yes, env, c1, brk);
    var no := if s.no.Some? then Out(s.no.value, After(env, s.yes), c1 + Count(s.yes), brk) else [];
    var calls := if s.no.Some? then Calls(s.no.value) else {};
    ExprOutside(s.cond, env, c + 1);
    StatementOutside(s.yes, env, c1, brk, inLoop);
    OutsideOne(Ref(else_), fs, gs);
    OutsideOne(Ref(end), fs, gs);
    OutsideOne(Def(else_), fs, gs);
    OutsideOne(Def(end), fs, gs);
    if s.no.Some? { StatementOutside(s.no.value, After(env, s.yes), c1 + Count(s.yes), brk, inLoop); }
    OutsideJoin([Ref(end)], [Def(else_)], {}, {}, fs, gs);
    assert [Ref(end)] + [Def(else_)] == [Ref(end), Def(else_)];
    var k1, k2 := ExprCalls(s.cond), Calls(s.yes);
    OutsideJoin(a, [Ref(else_)], k1, {}, fs, gs);
    OutsideJoin(a + [Ref(else_)], yes, k1 + {}, k2, fs, gs);
    OutsideJoin(a + [Ref(else_)] + yes, [Ref(end), Def(else_)], k1 + {} + k2, {} + {}, fs, gs);
    OutsideJoin(a + [Ref(else_)] + yes + [Ref(end), Def(else_)], no, k1 + {} + k2 + ({} + {}), calls, fs, gs);
    OutsideJoin(a + [Ref(else_)] + yes + [Ref(end), Def(else_)] + no, [Def(end)], k1 + {} + k2 + ({} + {}) + calls, {}, fs, gs);
    assert k1 + {} + k2 + ({} + {}) + calls + {} == Calls(s);
  }

  lemma {:induction false} WhileOutside(s: Stmt, env: Env, c: nat, brk: Label, inLoop: bool)
    requires s.While? && BreaksInside(s, inLoop)
    ensures Outside(Out(s, env, c, brk), Calls(s), env.functions, env.symbols)
    decreases s, 0
  {
    hide Outside, ExprOut, ExprCalls;
    var fs, gs, c1 := env.functions, env.symbols, c + 1 + ExprCount(s.cond);
    var top, end := Numbered(WhileL, env.f, c), Numbered(EndWhileL, env.f, c);
    var a, body := ExprOut(s.cond, env, c + 1), Out(s.body, env, c1, end);
    ExprOutside(s.cond, env, c + 1);
    StatementOutside(s.body, env, c1, end, true);
    OutsideOne(Def(top), fs, gs);
    OutsideOne(Ref(top), fs, gs);
    OutsideOne(Ref(end), fs, gs);
    OutsideOne(Def(end), fs, gs);
    OutsideJoin([Ref(top)], [Def(end)], {}, {}, fs, gs);
    assert [Ref(top)] + [Def(end)] == [Ref(top), Def(end)];
    var k1, k2 := ExprCalls(s.cond), Calls(s.body);
    OutsideJoin([Def(top)], a, {}, k1, fs, gs);
    OutsideJoin([Def(top)] + a, [Ref(end)], {} + k1, {}, fs, gs);
    OutsideJoin([Def(top)] + a + [Ref(end)], body, {} + k1 + {}, k2, fs, gs);
    OutsideJoin([Def(top)] + a + [Ref(end)] + body, [Ref(top), Def(end)], {} + k1 + {} + k2, {} + {}, fs, gs);
    assert {} + k1 + {} + k2 + ({} + {}) == Calls(s);
  }

  function Line(x: Item<Label>): Item<string> {
    match x
    case Def(l) => Def(Spell(l))
    case Ref(l) => Ref(Spell(l))
  }

  function Lines(items: Items): (ls: seq<Item<string>>)
    ensures |ls| == |items|
  {
    seq(|items|, i requires 0 <= i < |items| => Line(items[i]))
  }

  lemma LinesConcat(a: Items, b: Items)
    ensures Lines(a + b) == Lines(a) + Lines(b)
  {
  }

  class Generator {
    var output: seq<Item<string>>
    var strings: seq<Item<string>>
    var globals: seq<Item<string>>
    var count: nat
    var breakHead: string
    var breakFunc: string
    var breakNum: string
    var func: string
    var arguments: set<string>
    var locals: set<string>
    var functions: set<string>
    var symbols: set<string>

    constructor ()
      ensures output == [] && strings == [] && globals == [] && functions == {} && symbols == {}
    {
      output, strings, globals, count := [], [], [], 0;
      breakHead, breakFunc, breakNum := "", "", "";
      func, arguments, locals, functions, symbols := "", {}, {}, {}, {};
    }

    function BreakTarget(): string
      reads this
    {
      breakHead + breakFunc + "_" + breakNum
    }

    /** The names known at this point. */
    function Here(): Env
      reads this
    {
      Env(func, arguments, locals, functions, symbols)
    }

    /** `primary_expr_variable` for a name that no parenthesis follows. */
    method Variable(x: string) returns (ok: bool)
      modifies this`output
      ensures ok <==> !Lookup(Here(), x).Unknown?
      ensures ok ==> output == old(output) + Lines(ExprOut(Name(x), Here(), count))
      ensures ok <==> x in locals || x in arguments || x in functions || x in symbols
      ensures ok ==> output == old(output) + if x in locals || x in arguments || x in functions then [] else [Ref("GLOBAL_" + x)]
    {
      LinesNone();
      if x in locals || x in arguments || x in functions {
        return true;
      }
      if x in symbols {
        LinesOne(Ref(GlobalL(x)));
        output := output + [Ref("GLOBAL_" + x)];
        return true;
      }
      ok := false;
    }

    /** An expression; an unknown name, or a call of anything else than a function, ends the program. */
    method Expression(e: Expr) returns (ok: bool)
      modifies this`output, this`strings, this`count
      ensures ok <==> Resolves(e, old(Here()))
      ensures ok ==> output == old(output) + Lines(ExprOut(e, old(Here()), old(count)))
      ensures ok ==> strings == old(strings) + Lines(ExprStrings(e, func, old(count)))
      ensures ok ==> count == old(count) + ExprCount(e)
      decreases e
    {
      hide UniqueId, Lines, Lookup, ExprOut, ExprStrings, ExprCount;
      ghost var env, c, o, t := Here(), count, output, strings;
      LinesNone();
      ExprParts(e, env, c);
      match e {
        case Plain => ok := true;
        case Text =>
          StringPrimary();
          ok := true;
        case Name(x) => ok := Variable(x);
        case Call(f, args) =>
          ok := FunctionCall(f, args);
        case Assign(target, value) =>
          ok := Expression(target);
          if !ok { return; }
          ok := Expression(value);
          if !ok { return; }
          ghost var mid := c + ExprCount(target);
          LinesConcat(ExprOut(target, env, c), ExprOut(value, env, mid));
          LinesConcat(ExprStrings(target, func, c), ExprStrings(value, func, mid));
          Assoc3(o, Lines(ExprOut(target, env, c)), Lines(ExprOut(value, env, mid)), []);
          Assoc3(t, Lines(ExprStrings(target, func, c)), Lines(ExprStrings(value, func, mid)), []);
      }
    }

    /** `primary_expr_string` */
    method StringPrimary()
      modifies this`output, this`strings, this`count
      ensures output == old(output) + Lines([Ref(Numbered(StringL, func, old(count)))])
      ensures strings == old(strings) + Lines([Def(Numbered(StringL, func, old(count)))])
      ensures count == old(count) + 1
    {
      hide UniqueId;
      LinesOne(Ref(Numbered(StringL, func, count)));
      LinesOne(Def(Numbered(StringL, func, count)));
      var text := "STRING_" + UniqueId(func, count);
      count := count + 1;
      output := output + [Ref(text)];
      strings := strings + [Def(text)];
    }

    /** The name, then the arguments one by one, then the call. */
    method FunctionCall(f: string, args: seq<Expr>) returns (ok: bool)
      modifies this`output, this`strings, this`count
      ensures ok ==> f in functions && f !in old(locals) && f !in old(arguments)
      ensures ok <==> Lookup(old(Here()), f).OfFunction? && forall i :: 0 <= i < |args| ==> Resolves(args[i], old(Here()))
      ensures ok ==> output == old(output) + Lines(ArgsOut(args, old(Here()), old(count)) + [Ref(FunctionL(f))])
      ensures ok ==> strings == old(strings) + Lines(ArgsStrings(args, func, old(count)))
      ensures ok ==> count == old(count) + ArgsCount(args)
      decreases args
    {
      hide UniqueId, Lines, ExprOut, ExprStrings, ExprCount, Resolves;
      ghost var env, c, o, t := Here(), count, output, strings;
      if f in locals || f in arguments || f !in functions {
        return false;
      }
      LinesNone();
      assert args[..0] == [];
      var i := 0;
      while i < |args|
        invariant i <= |args| && Here() == env && forall k :: 0 <= k < i ==> Resolves(args[k], env)
        invariant output == o + Lines(ArgsOut(args[..i], env, c)) && strings == t + Lines(ArgsStrings(args[..i], func, c))
        invariant count == c + ArgsCount(args[..i])
      {
        ok := Expression(args[i]);
        if !ok { return; }
        ghost var done, mid := args[..i], c + ArgsCount(args[..i]);
        ArgsSnoc(args, i, env, c);
        LinesConcat(ArgsOut(done, env, c), ExprOut(args[i], env, mid));
        LinesConcat(ArgsStrings(done, func, c), ExprStrings(args[i], func, mid));
        Assoc3(o, Lines(ArgsOut(done, env, c)), Lines(ExprOut(args[i], env, mid)), []);
        Assoc3(t, Lines(ArgsStrings(done, func, c)), Lines(ExprStrings(args[i], func, mid)), []);
        i := i + 1;
      }
      assert args[..i] == args;
      LinesOne(Ref(FunctionL(f)));
      LinesConcat(ArgsOut(args, env, c), [Ref(FunctionL(f))]);
      output := output + [Ref("FUNCTION_" + f)];
      Assoc3(o, Lines(ArgsOut(args, env, c)), [Ref("FUNCTION_" + f)], []);
      ok := true;
    }

    method OptExpression(e: Option<Expr>) returns (ok: bool)
      modifies this`output, this`strings, this`count
      ensures ok <==> OptResolves(e, old(Here()))
      ensures ok ==> output == old(output) + Lines(OptOut(e, old(Here()), old(count)))
      ensures ok ==> strings == old(strings) + Lines(OptStrings(e, func, old(count)))
      ensures ok ==> count == old(count) + OptCount(e)
    {
      LinesNone();
      ok := true;
      if e.Some? {
        ok := Expression(e.value);
      }
    }

    method Statement(s: Stmt, ghost brk: Label, ghost inLoop: bool) returns (ok: bool)
      requires BreaksInside(s, inLoop) && (inLoop ==> BreakTarget() == Spell(brk))
      modifies this
      ensures ok <==> StmtResolves(s, old(Here()))
      ensures ok ==> output == old(output) + Lines(Out(s, old(Here()), old(count), brk))
      ensures ok ==> strings == old(strings) + Lines(Strings(s, func, old(count)))
      ensures ok ==> count == old(count) + Count(s) && globals == old(globals) && Here() == After(old(Here()), s)
      ensures func == old(func) && functions == old(functions) && symbols == old(symbols)
      ensures ok ==> breakHead == old(breakHead) && breakFunc == old(breakFunc) && breakNum == old(breakNum)
      decreases s
    {
      hide Spell, Lines, UniqueId, Out, Strings, After, Resolves;
      OutUnfold(s, Here(), count, brk);
      match s {
        case Do(e) => ok := Expression(e);
        case Return(e) => ok := OptExpression(e);
        case Local(x, init) =>
          locals := locals + {x};
          ok := OptExpression(init);
        case If(cond, yes, no) => ok := ProcessIf(s, brk, inLoop);
        case While(cond, body) => ok := ProcessWhile(s, brk, inLoop);
        case Break =>
          LinesOne(Ref(brk));
          LinesNone();
          output := output + [Ref(BreakTarget())];
          ok := true;
        case Block(body) =>
          var frame := locals;
          ok := StatementList(body, brk, inLoop);
          locals := frame;
      }
    }

    /** The loop over the statements of a block. */
    method StatementList(body: seq<Stmt>, ghost brk: Label, ghost inLoop: bool) returns (ok: bool)
      requires forall i :: 0 <= i < |body| ==> BreaksInside(body[i], inLoop)
      requires inLoop ==> BreakTarget() == Spell(brk)
      modifies this
      ensures ok <==> AllResolve(body, old(Here()))
      ensures ok ==> output == old(output) + Lines(OutAll(body, old(Here()), old(count), brk))
      ensures ok ==> strings == old(strings) + Lines(StringsAll(body, func, old(count)))
      ensures ok ==> count == old(count) + CountAll(body) && globals == old(globals) && arguments == old(arguments)
      ensures func == old(func) && functions == old(functions) && symbols == old(symbols)
      ensures ok ==> breakHead == old(breakHead) && breakFunc == old(breakFunc) && breakNum == old(breakNum)
      decreases body
    {
      hide Spell, Lines, UniqueId, Out, Strings, Count, OutAll, StringsAll, BreaksInside, After, StmtResolves;
      AllUnfold(body, Here(), count, brk);
      LinesNone();
      ok := true;
      if body != [] {
        ghost var c, o, t, env := count, output, strings, Here();
        AfterKeeps(env, body[0]);
        ok := Statement(body[0], brk, inLoop);
        if !ok { return; }
        ok := StatementList(body[1..], brk, inLoop);
        if !ok { return; }
        ghost var c1, env1 := c + Count(body[0]), After(env, body[0]);
        LinesConcat(Out(body[0], env, c, brk), OutAll(body[1..], env1, c1, brk));
        LinesConcat(Strings(body[0], func, c), StringsAll(body[1..], func, c1));
        Assoc3(o, Lines(Out(body[0], env, c, brk)), Lines(OutAll(body[1..], env1, c1, brk)), []);
        Assoc3(t, Lines(Strings(body[0], func, c)), Lines(StringsAll(body[1..], func, c1)), []);
      }
    }

    method ProcessIf(s: Stmt, ghost brk: Label, ghost inLoop: bool) returns (ok: bool)
      requires s.If? && BreaksInside(s, inLoop) && (inLoop ==> BreakTarget() == Spell(brk))
      modifies this
      ensures ok <==> StmtResolves(s, old(Here()))
      ensures ok ==> output == old(output) + Lines(Out(s, old(Here()), old(count), brk))
      ensures ok ==> strings == old(strings) + Lines(Strings(s, func, old(count)))
      ensures ok ==> count == old(count) + Count(s) && globals == old(globals) && Here() == After(old(Here()), s)
      ensures func == old(func) && functions == old(functions) && symbols == old(symbols)
      ensures ok ==> breakHead == old(breakHead) && breakFunc == old(breakFunc) && breakNum == old(breakNum)
      decreases s, 0
    {
      hide Lines, UniqueId, Out, Strings, ExprOut, ExprStrings, BreaksInside, Resolves, StmtResolves, After, Count, ExprCount, Spell;
      BreaksUnfold(s, inLoop);
      ghost var env, c, o, t, n, f := Here(), count, output, strings, ExprCount(s.cond), func;
      var id := UniqueId(func, count);
      count := count + 1;
      IfUnfold(s, env);
      AfterKeeps(env, s.yes);
      ok := Expression(s.cond);
      if !ok { return; }
      output := output + [Ref("ELSE_" + id)];
      ok := Statement(s.yes, brk, inLoop);
      if !ok { return; }
      output := output + [Ref("_END_IF_" + id), Def("ELSE_" + id)];
      LinesNone();
      if s.no.Some? {
        ok := Statement(s.no.value, brk, inLoop);
        if !ok { return; }
      }
      output := output + [Def("_END_IF_" + id)];
      IfEmitted(o, t, s, env, c, brk);
    }

    /** A while from its first label to its last, with the break target set. */
    method WhileText(s: Stmt, id: string, ghost c: nat, ghost brk: Label) returns (ok: bool)
      requires s.While? && BreaksInside(s, false) && id == UniqueId(func, c) && count == c + 1
      requires BreakTarget() == Spell(Numbered(EndWhileL, func, c))
      modifies this
      ensures ok <==> StmtResolves(s, old(Here()))
      ensures ok ==> output == old(output) + Lines(Out(s, old(Here()), c, brk))
      ensures ok ==> strings == old(strings) + Lines(Strings(s, func, c))
      ensures ok ==> count == c + Count(s) && globals == old(globals) && Here() == After(old(Here()), s)
      ensures func == old(func) && functions == old(functions) && symbols == old(symbols)
      decreases s, 0
    {
      hide Lines, Out, Strings, ExprOut, ExprStrings, BreaksInside, Resolves, StmtResolves, After, Count, ExprCount, Spell, UniqueId;
      BreaksUnfold(s, false);
      ghost var env, o, t := Here(), output, strings;
      WhileUnfold(s, env);
      output := output + [Def("WHILE_" + id)];
      ok := Expression(s.cond);
      if !ok { return; }
      output := output + [Ref("END_WHILE_" + id)];
      ok := Statement(s.body, Numbered(EndWhileL, func, c), true);
      if !ok { return; }
      output := output + [Ref("WHILE_" + id), Def("END_WHILE_" + id)];
      WhileEmitted(o, t, s, env, c, brk);
    }

    method ProcessWhile(s: Stmt, ghost brk: Label, ghost inLoop: bool) returns (ok: bool)
      requires s.While? && BreaksInside(s, inLoop)
      modifies this
      ensures ok <==> StmtResolves(s, old(Here()))
      ensures ok ==> output == old(output) + Lines(Out(s, old(Here()), old(count), brk))
      ensures ok ==> strings == old(strings) + Lines(Strings(s, func, old(count)))
      ensures ok ==> count == old(count) + Count(s) && globals == old(globals) && Here() == After(old(Here()), s)
      ensures func == old(func) && functions == old(functions) && symbols == old(symbols)
      ensures ok ==> breakHead == old(breakHead) && breakFunc == old(breakFunc) && breakNum == old(breakNum)
      decreases s, 1
    {
      hide Lines, Out, Strings, StmtResolves, After, Count, Spell, UniqueId, Numerals.Numeral;
      EndSpelled(func, count);
      var nestedHead, nestedFunc, nestedNum := breakHead, breakFunc, breakNum;
      var number := Numerals.Numeral(Wrap(count), 10, true);
      ghost var c := count;
      count := count + 1;
      breakHead, breakFunc, breakNum := "END_WHILE_", func, number;
      ok := WhileText(s, func + "_" + number, c, brk);
      breakHead, breakFunc, breakNum := nestedHead, nestedFunc, nestedNum;
    }

    /** Numbers start from 0 in every function, and there are no locals yet. */
    method DeclareFunction(f: string, params: seq<string>, body: Option<Stmt>) returns (ok: bool)
      requires body.Some? ==> BreaksInside(body.value, false)
      modifies this
      ensures functions == old(functions) + {f} && symbols == old(symbols)
      ensures var env := Env(f, Elements(params), {}, functions, symbols);
        && (ok <==> body.Some? ==> StmtResolves(body.value, env))
        && (ok ==> globals == old(globals))
        && (ok ==> output == old(output) + Lines(BodyOut(env, body)) && strings == old(strings) + Lines(BodyStrings(f, body)))
    {
      hide Lines, Out, Strings, StmtResolves;
      LinesNone();
      count, func, functions, arguments, locals := 0, f, functions + {f}, Elements(params), {};
      ok := true;
      if body.Some? {
        ghost var env := Here();
        LinesOne(Def(FunctionL(f)));
        LinesConcat([Def(FunctionL(f))], Out(body.value, env, 0, FunctionL(f)));
        output := output + [Def("FUNCTION_" + f)];
        ok := Statement(body.value, FunctionL(f), false);
        Assoc3(old(output), [Def("FUNCTION_" + f)], Lines(Out(body.value, env, 0, FunctionL(f))), []);
      }
    }

    method Program(ds: seq<Decl>) returns (ok: bool)
      requires output == [] && strings == [] && globals == [] && functions == {} && symbols == {}
      requires forall i :: 0 <= i < |ds| && ds[i].Function? ==> BreaksInside(ds[i].body, false)
      modifies this
      ensures ok <==> Accepted(ds)
      ensures ok ==> output == Lines(ProgramOut(ds)) && strings == Lines(ProgramStrings(ds)) && globals == Lines(ProgramGlobals(ds))
    {
      hide Lines, Out, Strings, ProgramOut, ProgramStrings, ProgramGlobals, BreaksInside, StmtResolves, BodyOut, BodyStrings, FunctionNames, SymbolNames;
      var i := 0;
      LinesNone();
      ProgramNone();
      assert ds[..0] == [];
      while i < |ds|
        invariant i <= |ds| && functions == FunctionNames(ds[..i]) && symbols == SymbolNames(ds[..i])
        invariant forall k :: 0 <= k < i && ds[k].Function? ==> StmtResolves(ds[k].body, BodyEnv(ds, k))
        invariant output == Lines(ProgramOut(ds[..i])) && strings == Lines(ProgramStrings(ds[..i]))
        invariant globals == Lines(ProgramGlobals(ds[..i]))
      {
        ProgramSnoc(ds, i);
        NamesSnoc(ds, i);
        symbols := symbols + {ds[i].name};
        match ds[i] {
          case Global(name) =>
            LinesOne(Def(GlobalL(name)));
            LinesConcat(ProgramGlobals(ds[..i]), [Def(GlobalL(name))]);
            globals := globals + [Def("GLOBAL_" + name)];
          case Prototype(name) =>
            ok := DeclareFunction(name, [], None);
            NoBody(name);
          case Function(name, params, body) =>
            ghost var env := BodyEnv(ds, i);
            LinesConcat(ProgramOut(ds[..i]), BodyOut(env, Some(body)));
            LinesConcat(ProgramStrings(ds[..i]), BodyStrings(name, Some(body)));
            ok := DeclareFunction(name, params, Some(body));
            if !ok { return; }
        }
        i := i + 1;
      }
      assert ds[..i] == ds;
      ok := true;
    }
  }

  function Elements(xs: seq<string>): set<string> { set x | x in xs }

  function BodyOut(env: Env, body: Option<Stmt>): Items {
    if body.Some? then [Def(FunctionL(env.f))] + Out(body.value, env, 0, FunctionL(env.f)) else []
  }

  function BodyStrings(f: string, body: Option<Stmt>): Items { if body.Some? then Strings(body.value, f, 0) else [] }

  lemma NoBody(f: string)
    ensures forall env :: Lines(BodyOut(env, None)) == [] && Lines(BodyStrings(f, None)) == []
  {
  }

  lemma ArgsSnoc(args: seq<Expr>, i: nat, env: Env, c: nat)
    requires i < |args|
    ensures var mid := c + ArgsCount(args[..i]);
      && ArgsOut(args[..i + 1], env, c) == ArgsOut(args[..i], env, c) + ExprOut(args[i], env, mid)
      && ArgsStrings(args[..i + 1], env.f, c) == ArgsStrings(args[..i], env.f, c) + ExprStrings(args[i], env.f, mid)
      && ArgsCount(args[..i + 1]) == ArgsCount(args[..i]) + ExprCount(args[i])
  {
    hide ExprOut, ExprStrings, ExprCount;
    assert args[..i + 1][..i] == args[..i];
  }

  lemma OutUnfold(s: Stmt, env: Env, c: nat, brk: Label)
    ensures match s
      case Do(e) => Out(s, env, c, brk) == ExprOut(e, env, c) && Strings(s, env.f, c) == ExprStrings(e, env.f, c) && After(env, s) == env
      case Return(e) => Out(s, env, c, brk) == OptOut(e, env, c) && Strings(s, env.f, c) == OptStrings(e, env.f, c) && After(env, s) == env
      case Local(x, init) =>
        && After(env, s) == env.(locals := env.locals + {x})
        && Out(s, env, c, brk) == OptOut(init, After(env, s), c) && Strings(s, env.f, c) == OptStrings(init, env.f, c)
      case If(_, _, _) => true
      case While(cond, body) =>
        var f, n := env.f, ExprCount(cond);
        && Out(s, env, c, brk) == [Def(Numbered(WhileL, f, c))] + ExprOut(cond, env, c + 1) + [Ref(Numbered(EndWhileL, f, c))]
          + Out(body, env, c + 1 + n, Numbered(EndWhileL, f, c))
          + [Ref(Numbered(WhileL, f, c)), Def(Numbered(EndWhileL, f, c))]
        && Strings(s, f, c) == ExprStrings(cond, f, c + 1) + Strings(body, f, c + 1 + n)
      case Break => Out(s, env, c, brk) == [Ref(brk)] && Strings(s, env.f, c) == [] && After(env, s) == env
      case Block(body) =>
        Out(s, env, c, brk) == OutAll(body, env, c, brk) && Strings(s, env.f, c) == StringsAll(body, env.f, c) && After(env, s) == env
  {
  }

  lemma AllUnfold(body: seq<Stmt>, env: Env, c: nat, brk: Label)
    ensures OutAll(body, env, c, brk) ==
      if body == [] then [] else Out(body[0], env, c, brk) + OutAll(body[1..], After(env, body[0]), c + Count(body[0]), brk)
    ensures StringsAll(body, env.f, c) ==
      if body == [] then [] else Strings(body[0], env.f, c) + StringsAll(body[1..], env.f, c + Count(body[0]))
    ensures CountAll(body) == if body == [] then 0 else Count(body[0]) + CountAll(body[1..])
  {
  }

  lemma WhileUnfold(s: Stmt, env: Env)
    requires s.While?
    ensures Count(s) == 1 + ExprCount(s.cond) + Count(s.body) && After(env, s) == After(env, s.body)
    ensures StmtResolves(s, env) <==> Resolves(s.cond, env) && StmtResolves(s.body, env)
  {
  }

  lemma IfUnfold(s: Stmt, env: Env)
    requires s.If?
    ensures Count(s) == 1 + ExprCount(s.cond) + Count(s.yes) + if s.no.Some? then Count(s.no.value) else 0
    ensures After(env, s) == if s.no.Some? then After(After(env, s.yes), s.no.value) else After(env, s.yes)
    ensures StmtResolves(s, env) <==>
      Resolves(s.cond, env) && StmtResolves(s.yes, env) && (s.no.Some? ==> StmtResolves(s.no.value, After(env, s.yes)))
  {
  }

  /** The pieces appended by a while are its lines. */
  lemma WhileEmitted(o: seq<Item<string>>, t: seq<Item<string>>, s: Stmt, env: Env, c: nat, brk: Label)
    requires s.While?
    ensures var f, id, c1 := env.f, UniqueId(env.f, c), c + 1 + ExprCount(s.cond);
      var body := Out(s.body, env, c1, Numbered(EndWhileL, f, c));
      && o + [Def("WHILE_" + id)] + Lines(ExprOut(s.cond, env, c + 1)) + [Ref("END_WHILE_" + id)] + Lines(body)
        + [Ref("WHILE_" + id), Def("END_WHILE_" + id)] == o + Lines(Out(s, env, c, brk))
      && t + Lines(ExprStrings(s.cond, f, c + 1)) + Lines(Strings(s.body, f, c1)) == t + Lines(Strings(s, f, c))
  {
    hide Lines, UniqueId, Out, Strings, ExprOut, ExprStrings, ExprCount;
    OutUnfold(s, env, c, brk);
    var f, id, c1 := env.f, UniqueId(env.f, c), c + 1 + ExprCount(s.cond);
    var cond, body := ExprOut(s.cond, env, c + 1), Out(s.body, env, c1, Numbered(EndWhileL, f, c));
    WhileLines(cond, body, f, c);
    Assoc6(o, [Def("WHILE_" + id)], Lines(cond), [Ref("END_WHILE_" + id)], Lines(body), [Ref("WHILE_" + id), Def("END_WHILE_" + id)], []);
    LinesConcat(ExprStrings(s.cond, f, c + 1), Strings(s.body, f, c1));
    Assoc3(t, Lines(ExprStrings(s.cond, f, c + 1)), Lines(Strings(s.body, f, c1)), []);
  }

  /** The pieces appended by an if are its lines. */
  lemma IfEmitted(o: seq<Item<string>>, t: seq<Item<string>>, s: Stmt, env: Env, c: nat, brk: Label)
    requires s.If?
    ensures var f, id, c1 := env.f, UniqueId(env.f, c), c + 1 + ExprCount(s.cond); var c2 := c1 + Count(s.yes);
      var no := if s.no.Some? then Out(s.no.value, After(env, s.yes), c2, brk) else [];
      var noStrings := if s.no.Some? then Strings(s.no.value, f, c2) else [];
      && o + Lines(ExprOut(s.cond, env, c + 1)) + [Ref("ELSE_" + id)] + Lines(Out(s.yes, env, c1, brk))
        + [Ref("_END_IF_" + id), Def("ELSE_" + id)] + Lines(no) + [Def("_END_IF_" + id)] == o + Lines(Out(s, env, c, brk))
      && t + Lines(ExprStrings(s.cond, f, c + 1)) + Lines(Strings(s.yes, f, c1)) + Lines(noStrings) == t + Lines(Strings(s, f, c))
  {
    hide Lines, UniqueId, Out, Strings, ExprOut, ExprStrings, ExprCount, Count, After;
    IfShape(s, env, c, brk);
    var f, id, c1 := env.f, UniqueId(env.f, c), c + 1 + ExprCount(s.cond);
    var c2 := c1 + Count(s.yes);
    var cond, yes := ExprOut(s.cond, env, c + 1), Out(s.yes, env, c1, brk);
    var no := if s.no.Some? then Out(s.no.value, After(env, s.yes), c2, brk) else [];
    var noStrings := if s.no.Some? then Strings(s.no.value, f, c2) else [];
    IfLines(cond, yes, no, f, c);
    Assoc6(o, Lines(cond), [Ref("ELSE_" + id)], Lines(yes), [Ref("_END_IF_" + id), Def("ELSE_" + id)], Lines(no), [Def("_END_IF_" + id)]);
    LinesThree(ExprStrings(s.cond, f, c + 1), Strings(s.yes, f, c1), noStrings);
    Assoc3(t, Lines(ExprStrings(s.cond, f, c + 1)), Lines(Strings(s.yes, f, c1)), Lines(noStrings));
  }

  lemma EndSpelled(f: string, c: nat)
    ensures var number := Numerals.Numeral(Wrap(c), 10, true);
      UniqueId(f, c) == f + "_" + number && Spell(Numbered(EndWhileL, f, c)) == "END_WHILE_" + f + "_" + number
  {
    hide Numerals.Numeral;
    var number := Numerals.Numeral(Wrap(c), 10, true);
    assert "END_WHILE_" + f + "_" + number == "END_WHILE_" + (f + "_" + number);
  }

  lemma BreaksUnfold(s: Stmt, inLoop: bool)
    requires BreaksInside(s, inLoop)
    ensures s.If? ==> BreaksInside(s.yes, inLoop) && (s.no.Some? ==> BreaksInside(s.no.value, inLoop))
    ensures s.While? ==> BreaksInside(s.body, true)
  {
  }

  lemma Assoc3<T>(o: seq<T>, a: seq<T>, b: seq<T>, c: seq<T>)
    ensures o + a + b + c == o + (a + b + c)
    ensures c == [] ==> o + a + b == o + (a + b)
  {
  }

  lemma Assoc6<T>(o: seq<T>, a: seq<T>, b: seq<T>, c: seq<T>, d: seq<T>, e: seq<T>, g: seq<T>)
    ensures o + a + b + c + d + e + g == o + (a + b + c + d + e + g)
    ensures g == [] ==> o + a + b + c + d + e == o + (a + b + c + d + e)
  {
    Assoc3(o, a, b, c);
    Assoc3(o, a + b + c, d, e);
    Assoc3(o, a + b + c + d + e, g, []);
    assert a + b + c + d + e + g + [] == a + b + c + d + e + g;
  }

  lemma LinesNone()
    ensures Lines([]) == []
  {
  }

  lemma LinesOne(x: Item<Label>)
    ensures Lines([x]) == [Line(x)]
  {
  }

  lemma LinesThree(a: Items, b: Items, c: Items)
    ensures Lines(a + b + c) == Lines(a) + Lines(b) + Lines(c)
  {
    LinesConcat(a, b);
    LinesConcat(a + b, c);
  }

  lemma IfLines(cond: Items, yes: Items, no: Items, f: string, c: nat)
    ensures var id := UniqueId(f, c);
      Lines(cond + [Ref(Numbered(ElseL, f, c))] + yes
        + [Ref(Numbered(EndIfL, f, c)), Def(Numbered(ElseL, f, c))] + no + [Def(Numbered(EndIfL, f, c))])
      == Lines(cond) + [Ref("ELSE_" + id)] + Lines(yes) + [Ref("_END_IF_" + id), Def("ELSE_" + id)] + Lines(no) + [Def("_END_IF_" + id)]
  {
    hide UniqueId;
  }

  lemma WhileLines(cond: Items, body: Items, f: string, c: nat)
    ensures var id := UniqueId(f, c); var top, end := Numbered(WhileL, f, c), Numbered(EndWhileL, f, c);
      Lines([Def(top)] + cond + [Ref(end)] + body + [Ref(top), Def(end)])
      == [Def("WHILE_" + id)] + Lines(cond) + [Ref("END_WHILE_" + id)] + Lines(body) + [Ref("WHILE_" + id), Def("END_WHILE_" + id)]
  {
    hide UniqueId;
  }

  function FunctionNames(ds: seq<Decl>): set<string> { set i | 0 <= i < |ds| && !ds[i].Global? :: ds[i].name }

  function SymbolNames(ds: seq<Decl>): set<string> { set i | 0 <= i < |ds| :: ds[i].name }

  /** What is known at the start of a function's body: the names declared before it, and its own. */
  function BodyEnv(ds: seq<Decl>, i: nat): Env
    requires i < |ds| && ds[i].Function?
  {
    Env(ds[i].name, Elements(ds[i].params), {}, FunctionNames(ds[..i + 1]), SymbolNames(ds[..i + 1]))
  }

  /** Does the compiler get through the program without an unknown name? */
  predicate Accepted(ds: seq<Decl>) {
    forall i :: 0 <= i < |ds| && ds[i].Function? ==> StmtResolves(ds[i].body, BodyEnv(ds, i))
  }

  function ProgramOut(ds: seq<Decl>): Items {
    if ds == [] then []
    else
      var n := |ds| - 1;
      ProgramOut(ds[..n]) + if ds[n].Function? then BodyOut(BodyEnv(ds, n), Some(ds[n].body)) else []
  }

  function ProgramStrings(ds: seq<Decl>): Items {
    if ds == [] then []
    else
      var n := |ds| - 1;
      ProgramStrings(ds[..n]) + if ds[n].Function? then BodyStrings(ds[n].name, Some(ds[n].body)) else []
  }

  function ProgramGlobals(ds: seq<Decl>): Items {
    if ds == [] then []
    else
      var d := ds[|ds| - 1];
      ProgramGlobals(ds[..|ds| - 1]) + if d.Global? then [Def(GlobalL(d.name))] else []
  }

  lemma ProgramNone()
    ensures ProgramOut([]) == [] && ProgramStrings([]) == [] && ProgramGlobals([]) == []
    ensures FunctionNames([]) == {} && SymbolNames([]) == {}
  {
  }

  lemma ProgramSnoc(ds: seq<Decl>, i: nat)
    requires i < |ds|
    ensures var d := ds[i];
      && ProgramOut(ds[..i + 1]) == (if d.Function? then ProgramOut(ds[..i]) + BodyOut(BodyEnv(ds, i), Some(d.body)) else ProgramOut(ds[..i]))
      && ProgramStrings(ds[..i + 1]) == (if d.Function? then ProgramStrings(ds[..i]) + BodyStrings(d.name, Some(d.body)) else ProgramStrings(ds[..i]))
      && ProgramGlobals(ds[..i + 1]) == (if d.Global? then ProgramGlobals(ds[..i]) + [Def(GlobalL(d.name))] else ProgramGlobals(ds[..i]))
  {
    hide Out, Strings, BodyOut, BodyStrings, FunctionNames, SymbolNames;
    assert ds[..i + 1][..i] == ds[..i];
    if ds[i].Function? { BodyEnvPrefix(ds, i + 1, i); }
  }

  lemma BodyEnvPrefix(ds: seq<Decl>, n: nat, i: nat)
    requires i < n <= |ds| && ds[i].Function?
    ensures BodyEnv(ds[..n], i) == BodyEnv(ds, i)
  {
    hide FunctionNames, SymbolNames;
    assert ds[..n][..i + 1] == ds[..i + 1];
  }

  lemma NamesSnoc(ds: seq<Decl>, i: nat)
    requires i < |ds|
    ensures SymbolNames(ds[..i + 1]) == SymbolNames(ds[..i]) + {ds[i].name}
    ensures FunctionNames(ds[..i + 1]) == if ds[i].Global? then FunctionNames(ds[..i]) else FunctionNames(ds[..i]) + {ds[i].name}
  {
    var a, b := ds[..i], ds[..i + 1];
    assert b[i] == ds[i] && forall k :: 0 <= k < i ==> a[k] == b[k];
    forall x | x in SymbolNames(b) ensures x in SymbolNames(a) + {ds[i].name} {
      var k :| 0 <= k < |b| && b[k].name == x;
      assert k < i ==> a[k].name == x;
    }
    forall x | x in FunctionNames(b) ensures x in FunctionNames(a) || (!ds[i].Global? && x == ds[i].name) {
      var k :| 0 <= k < |b| && !b[k].Global? && b[k].name == x;
      assert k < i ==> a[k].name == x;
    }
    forall x | x in SymbolNames(a) ensures x in SymbolNames(b) {
      var k :| 0 <= k < |a| && a[k].name == x;
      assert b[k].name == x;
    }
    forall x | x in FunctionNames(a) ensures x in FunctionNames(b) {
      var k :| 0 <= k < |a| && !a[k].Global? && a[k].name == x;
      assert b[k].name == x;
    }
  }

  /** No two functions and no two global variables share a name; functions are defined once. */
  predicate DistinctNames(ds: seq<Decl>) {
    forall i, j :: 0 <= i < j < |ds| && ds[i].name == ds[j].name ==>
      !(ds[i].Function? && ds[j].Function?) && !(ds[i].Global? && ds[j].Global?)
  }

  function ProgramItems(ds: seq<Decl>): Items { ProgramOut(ds) + ProgramStrings(ds) + ProgramGlobals(ds) }

  predicate HasFunction(ds: seq<Decl>, f: string) {
    exists i :: 0 <= i < |ds| && ds[i].Function? && ds[i].name == f
  }

  predicate HasGlobal(ds: seq<Decl>, name: string) {
    exists i :: 0 <= i < |ds| && ds[i].Global? && ds[i].name == name
  }

  /** Where a label of a program comes from. */
  predicate Owned(ds: seq<Decl>, l: Label) {
    match l
    case Numbered(_, f, num) => num < LIMIT && HasFunction(ds, f)
    case FunctionL(f) => HasFunction(ds, f)
    case GlobalL(name) => HasGlobal(ds, name)
  }

  /** The functions called anywhere in a program. */
  function Called(ds: seq<Decl>): set<string> {
    if ds == [] then {}
    else
      var d := ds[|ds| - 1];
      Called(ds[..|ds| - 1]) + if d.Function? then Calls(d.body) else {}
  }

  ghost predicate GoodBodies(ds: seq<Decl>) {
    forall i :: 0 <= i < |ds| && ds[i].Function? ==> BreaksInside(ds[i].body, false) && Count(ds[i].body) <= LIMIT
  }

  /**
    Every label is defined at most once; every use of a numbered label or of a global variable is
    defined, and the uses of functions are those of the functions called.
   */
  lemma {:induction false} ProgramUses(ds: seq<Decl>)
    requires DistinctNames(ds) && GoodBodies(ds)
    ensures forall l :: Defs(ProgramItems(ds))[l] <= 1
    ensures forall l :: l in Defs(ProgramItems(ds)) ==> Owned(ds, l)
    ensures forall l :: l in Uses(ProgramItems(ds)) && !l.FunctionL? ==> l in Defs(ProgramItems(ds))
    ensures forall g :: FunctionL(g) in Uses(ProgramItems(ds)) <==> g in Called(ds)
  {
    hide Defs, Uses, Out, Strings, BreaksInside, Count, Owned, ProgramItems, Calls, DeclItems;
    if ds == [] {
      One(Ref(FunctionL("")));
      assert ProgramItems(ds) == [] by { NoItems(); }
    } else {
      var n := |ds| - 1;
      var before, d := ds[..n], ds[n];
      assert ds == before + [d];
      ProgramUses(before);
      var own := DeclItems(ds, n);
      ProgramParts(ds);
      DeclLabels(ds, n);
      forall l | l in Defs(ProgramItems(before)) ensures Owned(ds, l) && l !in Defs(own) {
        OwnedApart(before, d, l);
      }
      forall l | l in Defs(own) ensures Owned(ds, l) {
        OwnedNew(before, d, l);
      }
      forall x | GlobalL(x) in Uses(own) ensures GlobalL(x) in Defs(ProgramItems(ds)) {
        GlobalsDefined(ds, x);
      }
    }
  }

  /** A name that is a symbol but no function's was declared as a variable. */
  lemma GlobalsDefined(ds: seq<Decl>, x: string)
    requires x in SymbolNames(ds) && x !in FunctionNames(ds)
    ensures GlobalL(x) in Defs(ProgramItems(ds))
  {
    hide Defs, Uses, ProgramOut, ProgramStrings, ProgramGlobals;
    var i :| 0 <= i < |ds| && ds[i].name == x;
    assert ds[i].Global?;
    GlobalEmitted(ds, i);
    var all := ProgramItems(ds);
    DefsMember(all, GlobalL(x));
    var k :| 0 <= k < |ProgramGlobals(ds)| && ProgramGlobals(ds)[k] == Def(GlobalL(x));
    assert all[|ProgramOut(ds)| + |ProgramStrings(ds)| + k] == Def(GlobalL(x));
  }

  lemma {:induction false} GlobalEmitted(ds: seq<Decl>, i: nat)
    requires i < |ds| && ds[i].Global?
    ensures Def(GlobalL(ds[i].name)) in ProgramGlobals(ds)
    decreases |ds|
  {
    if i < |ds| - 1 { GlobalEmitted(ds[..|ds| - 1], i); }
  }

  /** All labels: defined once, and every use defined exactly when every function called has a body. */
  lemma ProgramLabels(ds: seq<Decl>)
    requires DistinctNames(ds) && GoodBodies(ds)
    ensures var d, u := Defs(ProgramItems(ds)), Uses(ProgramItems(ds));
      && (forall l :: d[l] <= 1)
      && (forall l :: l in u && !l.FunctionL? ==> l in d)
      && ((forall l :: l in u ==> l in d) <==> forall g :: g in Called(ds) ==> HasFunction(ds, g))
  {
    hide Defs, Uses, ProgramItems, Called, BreaksInside, Count;
    ProgramUses(ds);
    var d, u := Defs(ProgramItems(ds)), Uses(ProgramItems(ds));
    forall g ensures FunctionL(g) in d <==> HasFunction(ds, g) {
      FunctionDefined(ds, g);
    }
    if forall l :: l in u ==> l in d {
      forall g | g in Called(ds) ensures HasFunction(ds, g) { assert FunctionL(g) in u; }
    }
  }

  lemma FunctionDefined(ds: seq<Decl>, g: string)
    requires forall l :: l in Defs(ProgramItems(ds)) ==> Owned(ds, l)
    ensures FunctionL(g) in Defs(ProgramItems(ds)) <==> HasFunction(ds, g)
  {
    hide Defs, Uses, ProgramOut, ProgramStrings, ProgramGlobals;
    if HasFunction(ds, g) {
      var i :| 0 <= i < |ds| && ds[i].Function? && ds[i].name == g;
      FunctionEmitted(ds, i);
      var all := ProgramItems(ds);
      DefsMember(all, FunctionL(g));
      var k :| 0 <= k < |ProgramOut(ds)| && ProgramOut(ds)[k] == Def(FunctionL(g));
      assert all[k] == Def(FunctionL(g));
    }
  }

  lemma {:induction false} FunctionEmitted(ds: seq<Decl>, i: nat)
    requires i < |ds| && ds[i].Function?
    ensures Def(FunctionL(ds[i].name)) in ProgramOut(ds)
    decreases |ds|
  {
    hide Out, BodyEnv;
    var n := |ds| - 1;
    if i < n {
      FunctionEmitted(ds[..n], i);
    } else {
      var env := BodyEnv(ds, n);
      assert env.f == ds[n].name by { BodyEnvName(ds, n); }
      assert BodyOut(env, Some(ds[n].body))[0] == Def(FunctionL(ds[n].name));
    }
  }

  lemma BodyEnvName(ds: seq<Decl>, i: nat)
    requires i < |ds| && ds[i].Function?
    ensures BodyEnv(ds, i).f == ds[i].name
  {
  }

  lemma NoItems()
    ensures ProgramItems([]) == []
  {
  }

  function DeclItems(ds: seq<Decl>, i: nat): Items
    requires i < |ds|
  {
    match ds[i]
    case Global(name) => [Def(GlobalL(name))]
    case Prototype(_) => []
    case Function(f, _, body) => BodyOut(BodyEnv(ds, i), Some(body)) + BodyStrings(f, Some(body))
  }

  /** Order aside, the last declaration adds its own labels. */
  lemma ProgramParts(ds: seq<Decl>)
    requires ds != []
    ensures var before, own := ProgramItems(ds[..|ds| - 1]), DeclItems(ds, |ds| - 1);
      && Defs(ProgramItems(ds)) == Defs(before) + Defs(own)
      && Uses(ProgramItems(ds)) == Uses(before) + Uses(own)
  {
    hide Defs, Uses, Out, Strings, ProgramOut, ProgramStrings, ProgramGlobals, BodyOut, BodyStrings, BodyEnv;
    var n := |ds| - 1;
    var b, d := ds[..n], ds[n];
    assert ds[..n + 1] == ds;
    ProgramSnoc(ds, n);
    var o := if d.Function? then BodyOut(BodyEnv(ds, n), Some(d.body)) else [];
    var s := if d.Function? then BodyStrings(d.name, Some(d.body)) else [];
    var g := if d.Global? then [Def(GlobalL(d.name))] else [];
    assert ProgramOut(ds) == ProgramOut(b) + o && ProgramStrings(ds) == ProgramStrings(b) + s && ProgramGlobals(ds) == ProgramGlobals(b) + g;
    One(Def(FunctionL("")));
    Three(ProgramOut(b) + o, ProgramStrings(b) + s, ProgramGlobals(b) + g);
    Three(ProgramOut(b), ProgramStrings(b), ProgramGlobals(b));
    Concat(ProgramOut(b), o);
    Concat(ProgramStrings(b), s);
    Concat(ProgramGlobals(b), g);
    Concat(o, s);
    assert DeclItems(ds, n) == if d.Function? then o + s else g;
  }

  lemma Three(a: Items, b: Items, c: Items)
    ensures Defs(a + b + c) == Defs(a) + Defs(b) + Defs(c) && Uses(a + b + c) == Uses(a) + Uses(b) + Uses(c)
  {
    Concat(a, b);
    Concat(a + b, c);
  }

  lemma DeclLabels(ds: seq<Decl>, i: nat)
    requires i < |ds| && (ds[i].Function? ==> BreaksInside(ds[i].body, false) && Count(ds[i].body) <= LIMIT)
    ensures var d, m, u := ds[i], Defs(DeclItems(ds, i)), Uses(DeclItems(ds, i));
      && (forall l :: m[l] <= 1)
      && (forall l :: l in m ==> DeclOwns(d, l))
      && (forall l :: l in u && l.Numbered? ==> l in m)
      && (forall g :: FunctionL(g) in u <==> d.Function? && g in Calls(d.body))
      && (forall x :: GlobalL(x) in u ==> x in SymbolNames(ds[..i + 1]) && x !in FunctionNames(ds[..i + 1]))
  {
    hide Defs, Uses, Out, Strings, BreaksInside, Count, FunctionNames, SymbolNames;
    var d := ds[i];
    One(Def(GlobalL(d.name)));
    if d.Function? {
      var fl, env := FunctionL(d.name), BodyEnv(ds, i);
      One(Def(fl));
      StatementLabels(d.body, env, 0, fl, false);
      StatementOutside(d.body, env, 0, fl, false);
      Three([Def(fl)], Out(d.body, env, 0, fl), Strings(d.body, d.name, 0));
      assert Defs(DeclItems(ds, i)) == multiset{fl} + AllDefs(d.body, env, 0, fl);
      NoStringUses(d.body, d.name, 0);
    }
  }

  predicate DeclOwns(d: Decl, l: Label) {
    match d
    case Global(name) => l == GlobalL(name)
    case Prototype(_) => false
    case Function(f, _, _) => l == FunctionL(f) || (l.Numbered? && l.f == f && l.num < LIMIT)
  }

  lemma {:induction false} NoStringUses(s: Stmt, f: string, c: nat)
    ensures Uses(Strings(s, f, c)) == {}
    decreases s
  {
    hide Uses, Defs, ExprStrings;
    One(Ref(FunctionL(f)));
    match s
    case Do(e) => ExprNoUses(e, f, c);
    case Return(e) => if e.Some? { ExprNoUses(e.value, f, c); }
    case Local(_, init) => if init.Some? { ExprNoUses(init.value, f, c); }
    case If(cond, yes, no) =>
      var c1 := c + 1 + ExprCount(cond);
      var rest := if no.Some? then Strings(no.value, f, c1 + Count(yes)) else [];
      ExprNoUses(cond, f, c + 1);
      NoStringUses(yes, f, c1);
      if no.Some? { NoStringUses(no.value, f, c1 + Count(yes)); }
      Three(ExprStrings(cond, f, c + 1), Strings(yes, f, c1), rest);
    case While(cond, body) =>
      ExprNoUses(cond, f, c + 1);
      NoStringUses(body, f, c + 1 + ExprCount(cond));
      Concat(ExprStrings(cond, f, c + 1), Strings(body, f, c + 1 + ExprCount(cond)));
    case Break =>
    case Block(body) => NoStringUsesAll(body, f, c);
  }

  lemma ExprNoUses(e: Expr, f: string, c: nat)
    ensures Uses(ExprStrings(e, f, c)) == {}
  {
    hide Uses, Defs, ExprStrings, ExprOut;
    ExprLabels(e, Env(f, {}, {}, {}, {}), c);
  }

  lemma {:induction false} NoStringUsesAll(body: seq<Stmt>, f: string, c: nat)
    ensures Uses(StringsAll(body, f, c)) == {}
    decreases body
  {
    hide Uses, Defs, Strings;
    One(Ref(FunctionL(f)));
    if body != [] {
      NoStringUses(body[0], f, c);
      NoStringUsesAll(body[1..], f, c + Count(body[0]));
      Concat(Strings(body[0], f, c), StringsAll(body[1..], f, c + Count(body[0])));
    }
  }

  lemma OwnedApart(before: seq<Decl>, d: Decl, l: Label)
    requires DistinctNames(before + [d]) && Owned(before, l)
    ensures Owned(before + [d], l) && !DeclOwns(d, l)
  {
    var ds := before + [d];
    assert ds[|before|] == d;
    if l.GlobalL? {
      var i :| 0 <= i < |before| && before[i].Global? && before[i].name == l.name;
      assert ds[i] == before[i];
    } else {
      var i :| 0 <= i < |before| && before[i].Function? && before[i].name == l.f;
      assert ds[i] == before[i];
    }
  }

  lemma OwnedNew(before: seq<Decl>, d: Decl, l: Label)
    requires DeclOwns(d, l)
    ensures Owned(before + [d], l)
  {
    assert (before + [d])[|before|] == d;
  }

  lemma {:induction false} DefsMember(items: Items, l: Label)
    ensures l in Defs(items) <==> Def(l) in items
    ensures l in Uses(items) <==> Ref(l) in items
  {
    if items != [] {
      var n := |items| - 1;
      DefsMember(items[..n], l);
      assert items == items[..n] + [items[n]];
    }
  }

  /**
    The assembler's view of a whole program: every label line is unlike all others, and every use
    has its line if and only if every function called has a body.
   */
  lemma LabelsOnce(ds: seq<Decl>)
    requires DistinctNames(ds) && GoodBodies(ds)
    ensures var ls := Lines(ProgramItems(ds));
      && (forall i, j :: 0 <= i < j < |ls| && ls[i].Def? && ls[j].Def? ==> ls[i] != ls[j])
      && ((forall i :: 0 <= i < |ls| && ls[i].Ref? ==> Def(ls[i].l) in ls) <==> forall g :: g in Called(ds) ==> HasFunction(ds, g))
  {
    hide Defs, Uses, ProgramItems, Spell, BreaksInside, Count, Owned, Called;
    ProgramUses(ds);
    ProgramLabels(ds);
    var items := ProgramItems(ds);
    var ls := Lines(items);
    forall i, j | 0 <= i < j < |ls| && ls[i].Def? && ls[j].Def? ensures ls[i] != ls[j] {
      if ls[i] == ls[j] {
        DefsMember(items, items[i].l);
        DefsMember(items, items[j].l);
        OwnedPrintable(ds, items[i].l);
        OwnedPrintable(ds, items[j].l);
        SpellInjective(items[i].l, items[j].l);
        DefTwice(items, i, j);
      }
    }
    forall i | 0 <= i < |ls| && ls[i].Ref? ensures Def(ls[i].l) in ls <==> items[i].l in Defs(items) {
      RefSpelled(ds, i);
    }
    forall l ensures l in Uses(items) <==> Ref(l) in items {
      DefsMember(items, l);
    }
  }

  /** The line of a use has its line of a definition iff the label is defined. */
  lemma RefSpelled(ds: seq<Decl>, i: nat)
    requires DistinctNames(ds) && GoodBodies(ds) && i < |ProgramItems(ds)| && ProgramItems(ds)[i].Ref?
    ensures var items := ProgramItems(ds); var ls := Lines(items);
      Def(ls[i].l) in ls <==> items[i].l in Defs(items)
  {
    hide Defs, Uses, ProgramItems, Spell, BreaksInside, Count, Owned, Called;
    ProgramUses(ds);
    var items := ProgramItems(ds);
    var ls, l := Lines(items), items[i].l;
    DefsMember(items, l);
    if l in Defs(items) {
      var j :| 0 <= j < |items| && items[j] == Def(l);
      assert ls[j] == Def(ls[i].l);
    } else if Def(ls[i].l) in ls {
      var j :| 0 <= j < |ls| && ls[j] == Def(ls[i].l);
      DefsMember(items, items[j].l);
      OwnedPrintable(ds, items[j].l);
      assert l.FunctionL?;
      SpellInjective(items[j].l, l);
    }
  }

  /** A function that is declared and called, but has no body. */
  lemma CalledPrototype()
    ensures var ds := [Prototype("f"), Function("g", [], Return(Some(Call("f", []))))];
      Accepted(ds) && DistinctNames(ds) && "f" in Called(ds) && !HasFunction(ds, "f")
  {
    var g := Function("g", [], Return(Some(Call("f", []))));
    var ds := [Prototype("f"), g];
    assert "f" != "g";
    assert ds[..2] == ds && ds[..1] == [Prototype("f")];
    NamesSnoc(ds, 0);
    NamesSnoc(ds, 1);
    assert ds[..0] == [] && "f" in BodyEnv(ds, 1).functions;
    assert Calls(g.body) == {"f"};
    assert "f" in Called(ds) by { assert ds[|ds| - 1] == g; }
  }

  lemma OwnedPrintable(ds: seq<Decl>, l: Label)
    requires Owned(ds, l)
    ensures Printable(l)
  {
  }

  lemma DefTwice(items: Items, i: nat, j: nat)
    requires i < j < |items| && items[i].Def? && items[i] == items[j]
    ensures Defs(items)[items[i].l] >= 2
  {
    hide Defs, Uses;
    var l := items[i].l;
    assert items == items[..j] + items[j..];
    Concat(items[..j], items[j..]);
    assert items[..j][i] == Def(l) && items[j..][0] == Def(l);
    DefsMember(items[..j], l);
    DefsMember(items[j..], l);
  }
}
