/**
  The machine the M2 compiler emits code for: the handful of 80386 instructions that
  m2min/M2_tcc.c prints, over an accumulator (eax), scratch registers, the two frame
  registers ebp and edi, and a stack that grows by whole words.

  Words are signed 32-bit integers and every arithmetic result is wrapped explicitly.
  Addresses are symbolic (a stack offset, a global, a code position), so that an
  arithmetic instruction applied to an address, or an access outside the stack, has no
  successor state.
 */
module M2Word {

  type Word = x: int | -0x8000_0000 <= x < 0x8000_0000

  function Wrap(x: int): Word {
    (x + 0x8000_0000) % 0x1_0000_0000 - 0x8000_0000
  }

  function Unsigned(x: Word): (u: nat)
    ensures u < 0x1_0000_0000
  {
    if x < 0 then x + 0x1_0000_0000 else x
  }

  function Abs(x: int): nat { if x < 0 then -x else x }

  /** Division truncating towards zero, the operator of `idiv` and of C. */
  function TruncDiv(a: int, b: int): int
    requires b != 0
  {
    var q := Abs(a) / Abs(b);
    if (a < 0) == (b < 0) then q else -q
  }

  function TruncMod(a: int, b: int): int
    requires b != 0
  {
    a - b * TruncDiv(a, b)
  }

  function Pow2(n: nat): (p: nat)
    ensures p > 0
  {
    if n == 0 then 1 else 2 * Pow2(n - 1)
  }

  datatype Logic = LAnd | LOr | LXor

  function LogicBit(op: Logic, a: nat, b: nat): nat {
    match op
    case LAnd => if a == 1 && b == 1 then 1 else 0
    case LOr => if a == 1 || b == 1 then 1 else 0
    case LXor => if a != b then 1 else 0
  }

  /** Bit-by-bit combination of the low n bits of two naturals. */
  function Bits(op: Logic, a: nat, b: nat, n: nat): nat {
    if n == 0 then 0 else LogicBit(op, a % 2, b % 2) + 2 * Bits(op, a / 2, b / 2, n - 1)
  }

  function Bitwise(op: Logic, a: Word, b: Word): Word {
    Wrap(Bits(op, Unsigned(a), Unsigned(b), 32))
  }

  lemma BitsCommute(op: Logic, a: nat, b: nat, n: nat)
    ensures Bits(op, a, b, n) == Bits(op, b, a, n)
  {
    if n > 0 { BitsCommute(op, a / 2, b / 2, n - 1); }
  }

  function Complement(a: Word): Word { -1 - a }

  lemma WrapIdentity(x: Word)
    ensures Wrap(x) == x
  {
  }

  lemma MulMonotone(a: nat, b: nat, c: nat)
    requires a <= b
    ensures a * c <= b * c
  {
    assert (b - a) * c >= 0;
    assert b * c == a * c + (b - a) * c;
  }

  lemma QuotientBounds(n: nat, d: nat)
    requires d > 0
    ensures 0 <= n - d * (n / d) < d && n / d <= n
    ensures d >= 2 ==> 2 * (n / d) <= n
    ensures d == 1 ==> n / d == n
  {
    var q := n / d;
    assert n == d * q + n % d;
    MulMonotone(1, d, q);
    if d >= 2 { MulMonotone(2, d, q); }
  }

  /** The quotient of two words is a word, except when the least word is divided by -1. */
  lemma TruncDivRange(a: Word, b: Word)
    requires b != 0
    ensures -0x8000_0000 <= TruncDiv(a, b) < 0x8000_0000 <==> !(a == -0x8000_0000 && b == -1)
    ensures -0x8000_0000 <= TruncMod(a, b) < 0x8000_0000
  {
    var n: int, d: int := Abs(a), Abs(b);
    QuotientBounds(n, d);
    ProductSign(a, b);
  }

  /** The product of divisor and truncated quotient, without signs. */
  lemma ProductSign(a: int, b: int)
    requires b != 0
    ensures b * TruncDiv(a, b) == if a < 0 then -(Abs(b) * (Abs(a) / Abs(b))) else Abs(b) * (Abs(a) / Abs(b))
  {
    var d: int, q: int := Abs(b), Abs(a) / Abs(b);
    assert (-d) * q == -(d * q) && (-d) * (-q) == d * q && d * (-q) == -(d * q);
  }

  /** The shift count is the low byte, of which the processor keeps five bits. */
  lemma ShiftCount(b: Word)
    ensures Unsigned(b) % 256 % 32 == Unsigned(b) % 32
  {
  }
}

module M2Machine {
  import opened Options
  import opened M2Word

  /** What a register or a stack slot holds. */
  datatype Value =
    | Int(n: Word)
    | StackAt(offset: int)      // byte offset from the bottom of the stack, at most 0
    | GlobalAt(name: string)
    | CodeAt(pc: nat)

  /** Labels carry what the assembler name spells: a kind, the function and a number. */
  datatype LabelKind = ElseL | EndIfL | ForL | ForIterL | ForThenL | ForEndL
    | DoL | DoTestL | DoEndL | WhileL | EndWhileL

  datatype Label = FunctionL(f: string) | LocalL(kind: LabelKind, f: string, num: nat)

  datatype Cond = SetL | SetLe | SetGe | SetG | SetE | SetNe | SetA

  datatype Instr =
    | MovEaxImm(n: Word) | MovEaxGlobal(x: string) | LeaEaxEbp(disp: int)
    | LoadEax | StoreEbx
    | PushEax | PushEbp | PushEdi | PopEbx | PopEbp | PopEdi
    | MovEdiEsp | MovEbpEdi | MovEaxEbx | MovEcxEax | MovEaxEdx | XchgEbxEax
    | AddEaxEbx | SubEbxEax | ImulEbx | Cdq | IdivEbx | SalEaxCl | SarEaxCl
    | LogicEaxEbx(op: Logic) | NotEax
    | CmpEbxEax | SetAl(c: Cond) | MovzxEaxAl | TestEaxEax
    | Je(l: Label) | Jne(l: Label) | Jmp(l: Label) | Call(f: string) | Ret
    | Mark(l: Label)

  type Code = seq<Instr>

  /** The stack is listed from its bottom: slot i lies at byte offset -4*(i+1), and esp is
      always -4*|stack|. `flags` keeps the two operands of the last comparison. */
  datatype State = State(pc: nat, eax: Value, ebx: Value, ecx: Value, edx: Value,
                         ebp: Value, edi: Value, stack: seq<Value>,
                         globals: map<string, Value>, flags: (Word, Word))

  /** First position of a label in the code, as the assembler resolves it. */
  function Find(code: Code, l: Label): (r: Option<nat>)
    ensures r.Some? ==> r.value < |code| && code[r.value] == Mark(l)
    ensures r.None? ==> Mark(l) !in code
  {
    if code == [] then None
    else if code[0] == Mark(l) then Some(0)
    else
      match Find(code[1..], l)
      case None => None
      case Some(i) => Some(i + 1)
  }

  predicate Holds(c: Cond, l: Word, r: Word) {
    match c
    case SetL => l < r
    case SetLe => l <= r
    case SetGe => l >= r
    case SetG => l > r
    case SetE => l == r
    case SetNe => l != r
    case SetA => Unsigned(l) > Unsigned(r)
  }

  /** Stack slot at a byte offset. */
  function SlotAt(offset: int): int { -offset / 4 - 1 }

  predicate ValidOffset(s: State, offset: int) {
    offset < 0 && offset % 4 == 0 && SlotAt(offset) < |s.stack|
  }

  function Next(s: State): State { s.(pc := s.pc + 1) }

  function Push(s: State, v: Value): State { Next(s).(stack := s.stack + [v]) }

  function Top(s: State): Value
    requires |s.stack| > 0
  {
    s.stack[|s.stack| - 1]
  }

  function Popped(s: State): seq<Value>
    requires |s.stack| > 0
  {
    s.stack[..|s.stack| - 1]
  }

  function Goto(code: Code, s: State, l: Label): Option<State> {
    match Find(code, l)
    case None => None
    case Some(i) => Some(s.(pc := i))
  }

  /** Replaces the low byte of a word, as `setcc al` does. */
  function WithLowByte(w: Word, b: nat): Word
    requires b < 256
  {
    Wrap(Unsigned(w) - Unsigned(w) % 256 + b)
  }

  /** Instructions on words held in registers. */
  function Arith(i: Instr, s: State): Option<State> {
    match i
    case AddEaxEbx =>
      if s.eax.Int? && s.ebx.Int? then Some(Next(s).(eax := Int(Wrap(s.eax.n + s.ebx.n)))) else None
    case SubEbxEax =>
      if s.eax.Int? && s.ebx.Int? then Some(Next(s).(ebx := Int(Wrap(s.ebx.n - s.eax.n)))) else None
    case ImulEbx =>
      if s.eax.Int? && s.ebx.Int? then
        var p := s.eax.n * s.ebx.n;
        Some(Next(s).(eax := Int(Wrap(p)), edx := Int(Wrap(p / 0x1_0000_0000))))
      else None
    case Cdq =>
      if s.eax.Int? then Some(Next(s).(edx := Int(if s.eax.n < 0 then -1 else 0))) else None
    case IdivEbx =>
      if s.eax.Int? && s.ebx.Int? && s.edx.Int? && s.ebx.n != 0 then
        var dividend := s.edx.n * 0x1_0000_0000 + Unsigned(s.eax.n);
        var q := TruncDiv(dividend, s.ebx.n);
        if -0x8000_0000 <= q < 0x8000_0000 then
          Some(Next(s).(eax := Int(q), edx := Int(Wrap(TruncMod(dividend, s.ebx.n)))))
        else None
      else None
    case SalEaxCl =>
      if s.eax.Int? && s.ecx.Int? then
        Some(Next(s).(eax := Int(Wrap(s.eax.n * Pow2(Unsigned(s.ecx.n) % 256 % 32)))))
      else None
    case SarEaxCl =>
      if s.eax.Int? && s.ecx.Int? then
        Some(Next(s).(eax := Int(Wrap(s.eax.n / Pow2(Unsigned(s.ecx.n) % 256 % 32)))))
      else None
    case LogicEaxEbx(op) =>
      if s.eax.Int? && s.ebx.Int? then Some(Next(s).(eax := Int(Bitwise(op, s.eax.n, s.ebx.n)))) else None
    case NotEax =>
      if s.eax.Int? then Some(Next(s).(eax := Int(Complement(s.eax.n)))) else None
    case CmpEbxEax =>
      if s.eax.Int? && s.ebx.Int? then Some(Next(s).(flags := (s.ebx.n, s.eax.n))) else None
    case TestEaxEax =>
      if s.eax.Int? then Some(Next(s).(flags := (s.eax.n, 0))) else None
    case SetAl(c) =>
      if s.eax.Int? then
        Some(Next(s).(eax := Int(WithLowByte(s.eax.n, if Holds(c, s.flags.0, s.flags.1) then 1 else 0))))
      else None
    case MovzxEaxAl =>
      if s.eax.Int? then Some(Next(s).(eax := Int(Unsigned(s.eax.n) % 256))) else None
    case _ => None
  }

  /** One step; None when the machine faults or has run off the code. */
  function Step(code: Code, s: State): Option<State> {
    if s.pc >= |code| then None else Exec(code, code[s.pc], s)
  }

  /** The effect of one instruction. */
  function Exec(code: Code, instr: Instr, s: State): Option<State> {
    match instr
    case MovEaxImm(n) => Some(Next(s).(eax := Int(n)))
    case MovEaxGlobal(x) => Some(Next(s).(eax := GlobalAt(x)))
    case LeaEaxEbp(d) =>
      if s.ebp.StackAt? then Some(Next(s).(eax := StackAt(s.ebp.offset + d))) else None
    case LoadEax =>
      (match s.eax
       case StackAt(o) => if ValidOffset(s, o) then Some(Next(s).(eax := s.stack[SlotAt(o)])) else None
       case GlobalAt(x) => if x in s.globals then Some(Next(s).(eax := s.globals[x])) else None
       case _ => None)
    case StoreEbx =>
      (match s.ebx
       case StackAt(o) => if ValidOffset(s, o) then Some(Next(s).(stack := s.stack[SlotAt(o) := s.eax])) else None
       case GlobalAt(x) =>
         if x in s.globals then Some(Next(s).(globals := s.globals[x := s.eax])) else None
       case _ => None)
    case PushEax => Some(Push(s, s.eax))
    case PushEbp => Some(Push(s, s.ebp))
    case PushEdi => Some(Push(s, s.edi))
    case PopEbx => if |s.stack| > 0 then Some(Next(s).(ebx := Top(s), stack := Popped(s))) else None
    case PopEbp => if |s.stack| > 0 then Some(Next(s).(ebp := Top(s), stack := Popped(s))) else None
    case PopEdi => if |s.stack| > 0 then Some(Next(s).(edi := Top(s), stack := Popped(s))) else None
    case MovEdiEsp => Some(Next(s).(edi := StackAt(-4 * |s.stack|)))
    case MovEbpEdi => Some(Next(s).(ebp := s.edi))
    case MovEaxEbx => Some(Next(s).(eax := s.ebx))
    case MovEcxEax => Some(Next(s).(ecx := s.eax))
    case MovEaxEdx => Some(Next(s).(eax := s.edx))
    case XchgEbxEax => Some(Next(s).(eax := s.ebx, ebx := s.eax))
    case Je(l) => if s.flags.0 == s.flags.1 then Goto(code, s, l) else Some(Next(s))
    case Jne(l) => if s.flags.0 != s.flags.1 then Goto(code, s, l) else Some(Next(s))
    case Jmp(l) => Goto(code, s, l)
    case Call(f) => Goto(code, s.(stack := s.stack + [CodeAt(s.pc + 1)]), FunctionL(f))
    case Ret =>
      if |s.stack| > 0 && Top(s).CodeAt? then Some(s.(pc := Top(s).pc, stack := Popped(s))) else None
    case Mark(_) => Some(Next(s))
    case i => Arith(i, s)
  }

  /** k instructions. */
  function Run(code: Code, s: State, k: nat): Option<State>
    decreases k
  {
    if k == 0 then Some(s)
    else
      match Step(code, s)
      case None => None
      case Some(t) => Run(code, t, k - 1)
  }

  ghost predicate Reaches(code: Code, s: State, t: State) {
    exists k: nat :: Run(code, s, k) == Some(t)
  }

  lemma {:induction false} RunAdd(code: Code, s: State, t: State, j: nat, k: nat)
    requires Run(code, s, j) == Some(t)
    ensures Run(code, s, j + k) == Run(code, t, k)
    decreases j
  {
    hide Exec;
    if j > 0 {
      RunAdd(code, Step(code, s).value, t, j - 1, k);
    }
  }

  lemma ReachesTrans(code: Code, s: State, t: State, u: State)
    requires Reaches(code, s, t) && Reaches(code, t, u)
    ensures Reaches(code, s, u)
  {
    var j: nat :| Run(code, s, j) == Some(t);
    var k: nat :| Run(code, t, k) == Some(u);
    RunAdd(code, s, t, j, k);
    assert Run(code, s, j + k) == Some(u);
  }

  lemma ReachesStep(code: Code, s: State, t: State, u: State)
    requires Reaches(code, s, t)
    requires Step(code, t) == Some(u)
    ensures Reaches(code, s, u)
  {
    assert Run(code, t, 1) == Some(u) by { assert Run(code, u, 0) == Some(u); }
    ReachesTrans(code, s, t, u);
  }

  lemma ReachesSelf(code: Code, s: State)
    ensures Reaches(code, s, s)
  {
    assert Run(code, s, 0) == Some(s);
  }

  /** `part` occupies the code from position pc on. */
  predicate Occurs(code: Code, pc: nat, part: Code) {
    pc + |part| <= |code| && code[pc..pc + |part|] == part
  }

  lemma OccursSplit(code: Code, pc: nat, a: Code, b: Code)
    requires Occurs(code, pc, a + b)
    ensures Occurs(code, pc, a) && Occurs(code, pc + |a|, b)
  {
    assert code[pc..pc + |a|] == (a + b)[..|a|];
    assert code[pc + |a|..pc + |a| + |b|] == (a + b)[|a|..];
  }

  lemma OccursAt(code: Code, pc: nat, part: Code, i: nat)
    requires Occurs(code, pc, part) && i < |part|
    ensures code[pc + i] == part[i]
  {
    assert code[pc + i] == code[pc..pc + |part|][i];
  }

  /** No label is defined twice. */
  ghost predicate UniqueLabels(code: Code) {
    forall i, j :: 0 <= i < j < |code| && code[i].Mark? ==> code[i] != code[j]
  }

  lemma FindUnique(code: Code, l: Label, i: nat)
    requires UniqueLabels(code) && i < |code| && code[i] == Mark(l)
    ensures Find(code, l) == Some(i)
  {
    assert Mark(l) in code;
    var j := Find(code, l).value;
    assert code[j] == code[i];
  }

  lemma SetByteRead(w: Word, b: nat)
    requires b < 256
    ensures Unsigned(WithLowByte(w, b)) % 256 == b
  {
    var u := Unsigned(w) - Unsigned(w) % 256 + b;
    assert 0 <= u < 0x1_0000_0000;
    assert Unsigned(Wrap(u)) == u;
    assert u % 256 == b;
  }
}
