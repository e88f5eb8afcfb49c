/**
  The instructions as bytes: the encodings that m2min/x86_defs.M1 gives to the mnemonics, and
  the 80386 that decodes them by opcode, register numbers and condition codes. What an instruction
  of the M2 machine does is what its bytes do.
 */
module M2Encoding {
  import opened Options
  import opened M2Word
  import opened M2Machine
  import opened Memory
  import opened DoubleWord

  /** Little-endian, in two's complement. */
  function Imm32(n: Word): seq<Octet> { Bytes(Unsigned(n)) }

  /** The bytes of an instruction; those of jumps and calls are followed by the displacement of the label. */
  function Encoding(i: Instr): Option<seq<Octet>> {
    match i
    case MovEaxImm(n) => Some([0xB8] + Imm32(n))
    case LeaEaxEbp(d) => if -0x8000_0000 <= d < 0x8000_0000 then Some([0x8D, 0x85] + Imm32(d)) else None
    case LoadEax => Some([0x8B, 0x00])
    case StoreEbx => Some([0x89, 0x03])
    case PushEax => Some([0x50])
    case PushEbp => Some([0x55])
    case PushEdi => Some([0x57])
    case PopEbx => Some([0x5B])
    case PopEbp => Some([0x5D])
    case PopEdi => Some([0x5F])
    case MovEdiEsp => Some([0x89, 0xE7])
    case MovEbpEdi => Some([0x89, 0xFD])
    case MovEaxEbx => Some([0x89, 0xD8])
    case MovEcxEax => Some([0x89, 0xC1])
    case MovEaxEdx => Some([0x89, 0xD0])
    case XchgEbxEax => Some([0x93])
    case AddEaxEbx => Some([0x01, 0xD8])
    case SubEbxEax => Some([0x29, 0xC3])
    case ImulEbx => Some([0xF7, 0xEB])
    case Cdq => Some([0x99])
    case IdivEbx => Some([0xF7, 0xFB])
    case SalEaxCl => Some([0xD3, 0xF0])
    case SarEaxCl => Some([0xD3, 0xF8])
    case LogicEaxEbx(op) => Some(match op case LAnd => [0x21, 0xD8] case LOr => [0x09, 0xD8] case LXor => [0x31, 0xD8])
    case NotEax => Some([0xF7, 0xD0])
    case CmpEbxEax => Some([0x39, 0xC3])
    case TestEaxEax => Some([0x85, 0xC0])
    case SetAl(c) =>
      (match c
       case SetA => Some([0x0F, 0x97, 0xC0]) case SetE => Some([0x0F, 0x94, 0xC0]) case SetNe => Some([0x0F, 0x95, 0xC0])
       case SetL => Some([0x0F, 0x9C, 0xC0]) case SetGe => Some([0x0F, 0x9D, 0xC0]) case SetLe => Some([0x0F, 0x9E, 0xC0])
       case SetG => Some([0x0F, 0x9F, 0xC0]))
    case MovzxEaxAl => Some([0x0F, 0xB6, 0xC0])
    case Je(_) => Some([0x0F, 0x84])
    case Jne(_) => Some([0x0F, 0x85])
    case Jmp(_) => Some([0xE9])
    case Call(_) => Some([0xE8])
    case Ret => Some([0xC3])
    case MovEaxGlobal(_) => Some([0xB8])
    case Mark(_) => None
  }

  // ----- the processor -----

  /** Registers by number; esi is not used. */
  function Register(s: State, r: nat): Value
    requires r < 8 && r != 6
  {
    if r == 0 then s.eax else if r == 1 then s.ecx else if r == 2 then s.edx else if r == 3 then s.ebx
    else if r == 4 then StackAt(-4 * |s.stack|) else if r == 5 then s.ebp else s.edi
  }

  /** esp changes by pushing and popping only. */
  function WithRegister(s: State, r: nat, v: Value): State
    requires r < 8 && r != 4 && r != 6
  {
    if r == 0 then s.(eax := v) else if r == 1 then s.(ecx := v) else if r == 2 then s.(edx := v) else if r == 3 then s.(ebx := v)
    else if r == 5 then s.(ebp := v) else s.(edi := v)
  }

  predicate Usable(r: nat) { r < 8 && r != 4 && r != 6 }

  /** The word at an address: the stack has its bottom at 0 and grows towards lower addresses. */
  function WordAt(s: State, a: Value): Option<Value> {
    match a
    case StackAt(o) => if o < 0 && o % 4 == 0 && -o / 4 <= |s.stack| then Some(s.stack[-o / 4 - 1]) else None
    case GlobalAt(x) => if x in s.globals then Some(s.globals[x]) else None
    case _ => None
  }

  function WithWordAt(s: State, a: Value, v: Value): Option<State> {
    match a
    case StackAt(o) => if o < 0 && o % 4 == 0 && -o / 4 <= |s.stack| then Some(s.(stack := s.stack[-o / 4 - 1 := v])) else None
    case GlobalAt(x) => if x in s.globals then Some(s.(globals := s.globals[x := v])) else None
    case _ => None
  }

  /** The condition codes of jumps and set instructions, after comparing l with r. */
  predicate Condition(cc: nat, l: Word, r: Word) {
    match cc
    case 4 => l == r
    case 5 => l != r
    case 7 => l as int % 0x1_0000_0000 > r as int % 0x1_0000_0000
    case 12 => l < r
    case 13 => l >= r
    case 14 => l <= r
    case 15 => l > r
    case _ => false
  }

  function Immediate(b: seq<Octet>, i: nat): Word
    requires i + 4 <= |b|
  {
    Wrap(Get32(b, i))
  }

  /** Two registers: the number in the low three bits of the second byte is the destination, that in bits 3 to 5 the source. */
  function TwoRegisters(op: Octet, rm: nat, reg: nat, s: State): Option<State>
    requires rm < 8 && reg < 8
  {
    if !Usable(rm) || reg == 6 then None
    else if op == 0x89 then Some(WithRegister(s, rm, Register(s, reg)))
    else
      var l, r := Register(s, rm), Register(s, reg);
      if !l.Int? || !r.Int? then None
      else if op == 0x01 then Some(WithRegister(s, rm, Int(Wrap(l.n + r.n))))
      else if op == 0x29 then Some(WithRegister(s, rm, Int(Wrap(l.n - r.n))))
      else if op == 0x21 then Some(WithRegister(s, rm, Int(Bitwise(LAnd, l.n, r.n))))
      else if op == 0x09 then Some(WithRegister(s, rm, Int(Bitwise(LOr, l.n, r.n))))
      else if op == 0x31 then Some(WithRegister(s, rm, Int(Bitwise(LXor, l.n, r.n))))
      else if op == 0x39 then Some(s.(flags := (l.n, r.n)))
      else if op == 0x85 then Some(s.(flags := (Bitwise(LAnd, l.n, r.n), 0)))
      else None
  }

  /** One operand, the operation being in bits 3 to 5. */
  function OneRegister(op: Octet, rm: nat, ext: nat, s: State): Option<State>
    requires rm < 8
  {
    if !Usable(rm) || !Register(s, rm).Int? || !s.eax.Int? then None
    else
      var x := Register(s, rm).n;
      if op == 0xF7 && ext == 2 then Some(WithRegister(s, rm, Int(-1 - x)))
      else if op == 0xF7 && ext == 5 then
        Some(s.(eax := Int(Wrap(s.eax.n * x)), edx := Int(Wrap(s.eax.n * x / 0x1_0000_0000))))
      else if op == 0xF7 && ext == 7 then
        if !s.edx.Int? || x == 0 then None
        else
          var dividend := s.edx.n * 0x1_0000_0000 + s.eax.n as int % 0x1_0000_0000;
          var q := TruncDiv(dividend, x);
          if -0x8000_0000 <= q < 0x8000_0000 then Some(s.(eax := Int(q), edx := Int(Wrap(TruncMod(dividend, x))))) else None
      else if op == 0xD3 && s.ecx.Int? then
        var count := s.ecx.n as int % 32;
        if ext == 4 || ext == 6 then Some(WithRegister(s, rm, Int(Wrap(x * Pow2(count)))))
        else if ext == 7 then Some(WithRegister(s, rm, Int(Wrap(x / Pow2(count)))))
        else None
      else None
  }

  function InMemory(op: Octet, rm: nat, reg: nat, s: State): Option<State>
    requires rm < 8 && reg < 8
  {
    if !Usable(rm) || !Usable(reg) || rm == 5 then None
    else if op == 0x89 then WithWordAt(s, Register(s, rm), Register(s, reg))
    else if op == 0x8B then
      match WordAt(s, Register(s, rm))
      case None => None
      case Some(v) => Some(WithRegister(s, reg, v))
    else None
  }

  /** What the bytes of an instruction do to registers, flags and memory. */
  function Decoded(b: seq<Octet>, s: State): Option<State>
    requires |b| > 0
  {
    var op := b[0];
    if 0x50 <= op <= 0x57 && Usable(op - 0x50) then Some(s.(stack := s.stack + [Register(s, op - 0x50)]))
    else if 0x58 <= op <= 0x5F && Usable(op - 0x58) then
      if s.stack == [] then None
      else Some(WithRegister(s, op - 0x58, s.stack[|s.stack| - 1]).(stack := s.stack[..|s.stack| - 1]))
    else if 0x91 <= op <= 0x97 && Usable(op - 0x90) then
      Some(WithRegister(s.(eax := Register(s, op - 0x90)), op - 0x90, s.eax))
    else if op == 0x99 then (if s.eax.Int? then Some(s.(edx := Int(if s.eax.n < 0 then -1 else 0))) else None)
    else if op == 0xB8 && |b| == 5 then Some(s.(eax := Int(Immediate(b, 1))))
    else if op == 0x8D && |b| == 6 && b[1] == 0x85 then
      if s.ebp.StackAt? then Some(s.(eax := StackAt(s.ebp.offset + Immediate(b, 2)))) else None
    else if op == 0x0F && |b| == 3 && 0x90 <= b[1] <= 0x9F && b[2] == 0xC0 then
      if s.eax.Int? then
        var u := s.eax.n as int % 0x1_0000_0000;
        Some(s.(eax := Int(Wrap(u - u % 256 + if Condition(b[1] - 0x90, s.flags.0, s.flags.1) then 1 else 0))))
      else None
    else if op == 0x0F && |b| == 3 && b[1] == 0xB6 && b[2] == 0xC0 then
      if s.eax.Int? then Some(s.(eax := Int(s.eax.n as int % 256))) else None
    else if |b| == 2 && (op == 0xF7 || op == 0xD3) && b[1] >= 0xC0 then OneRegister(op, b[1] % 8, b[1] / 8 % 8, s)
    else if |b| == 2 && b[1] >= 0xC0 then TwoRegisters(op, b[1] % 8, b[1] / 8 % 8, s)
    else if |b| == 2 && b[1] < 0x40 then InMemory(op, b[1] % 8, b[1] / 8 % 8, s)
    else None
  }

  lemma ImmediateBack(n: Word, b: seq<Octet>, i: nat)
    requires i + 4 == |b| && b[i..] == Imm32(n)
    ensures Immediate(b, i) == n
  {
    hide Get32, Bytes;
    BytesValue(Unsigned(n));
    BytesMoved(b, i);
    assert Wrap(Unsigned(n)) == n;
  }

  lemma BytesMoved(b: seq<Octet>, i: nat)
    requires i + 4 == |b|
    ensures Get32(b, i) == Get32(b[i..], 0)
  {
  }

  /** What the bytes do, and then the next instruction. */
  function Stepped(i: Instr, s: State): Option<State>
    requires Encoding(i).Some?
  {
    match Decoded(Encoding(i).value, s)
    case None => None
    case Some(t) => Some(t.(pc := s.pc + 1))
  }

  lemma StackSteps(code: Code, i: Instr, s: State)
    requires i.PushEax? || i.PushEbp? || i.PushEdi? || i.PopEbx? || i.PopEbp? || i.PopEdi?
    ensures Exec(code, i, s) == Stepped(i, s)
  {
  }

  lemma MoveSteps(code: Code, i: Instr, s: State)
    requires i.MovEdiEsp? || i.MovEbpEdi? || i.MovEaxEbx? || i.MovEcxEax? || i.MovEaxEdx? || i.XchgEbxEax?
    ensures Exec(code, i, s) == Stepped(i, s)
  {
  }

  lemma LoadSteps(code: Code, s: State)
    ensures Exec(code, LoadEax, s) == Stepped(LoadEax, s)
  {
  }

  lemma StoreSteps(code: Code, s: State)
    ensures Exec(code, StoreEbx, s) == Stepped(StoreEbx, s)
  {
  }

  lemma {:induction false} AndSelf(a: nat, n: nat)
    requires a < Pow2(n)
    ensures Bits(LAnd, a, a, n) == a
  {
    if n > 0 { AndSelf(a / 2, n - 1); }
  }

  lemma AndItself(x: Word)
    ensures Bitwise(LAnd, x, x) == x
  {
    hide Bits, Pow2;
    PowerOfTwo32();
    AndSelf(Unsigned(x), 32);
  }

  lemma SumSteps(code: Code, i: Instr, s: State)
    requires i.AddEaxEbx? || i.SubEbxEax? || i.CmpEbxEax?
    ensures Exec(code, i, s) == Stepped(i, s)
  {
    hide Wrap;
  }

  lemma LogicSteps(code: Code, i: Instr, s: State)
    requires i.LogicEaxEbx? || i.TestEaxEax?
    ensures Exec(code, i, s) == Stepped(i, s)
  {
    hide Bitwise;
    if i.TestEaxEax? && s.eax.Int? { AndItself(s.eax.n); }
  }

  lemma SingleSteps(code: Code, i: Instr, s: State)
    requires i.NotEax? || i.ImulEbx? || i.Cdq?
    ensures Exec(code, i, s) == Stepped(i, s)
  {
    hide Wrap;
  }

  lemma DivisionSteps(code: Code, s: State)
    ensures Exec(code, IdivEbx, s) == Stepped(IdivEbx, s)
  {
    hide Wrap, TruncDiv, TruncMod, Unsigned;
    if s.eax.Int? { UnsignedRest(s.eax.n); }
  }

  lemma UnsignedRest(x: Word)
    ensures Unsigned(x) == x as int % 0x1_0000_0000
  {
  }

  lemma LowByte(x: Word)
    ensures Unsigned(x) % 256 == x as int % 256
  {
  }

  lemma LowBits(x: Word)
    ensures Unsigned(x) % 256 % 32 == x as int % 32
  {
    ShiftCount(x);
  }

  lemma ShiftSteps(code: Code, i: Instr, s: State)
    requires i.SalEaxCl? || i.SarEaxCl?
    ensures Exec(code, i, s) == Stepped(i, s)
  {
    hide Wrap, Pow2;
    if s.ecx.Int? { LowBits(s.ecx.n); }
  }

  lemma ByteSteps(code: Code, i: Instr, s: State)
    requires i.SetAl? || i.MovzxEaxAl?
    ensures Exec(code, i, s) == Stepped(i, s)
  {
    hide Wrap, Unsigned;
    if s.eax.Int? {
      UnsignedRest(s.eax.n);
      LowByte(s.eax.n);
      UnsignedRest(s.flags.0);
      UnsignedRest(s.flags.1);
    }
  }

  lemma ImmediateSteps(code: Code, i: Instr, s: State)
    requires (i.MovEaxImm? || i.LeaEaxEbp?) && Encoding(i).Some?
    ensures Exec(code, i, s) == Stepped(i, s)
  {
    hide Immediate, Bytes;
    var n := if i.MovEaxImm? then i.n else i.disp;
    var head := if i.MovEaxImm? then [0xB8] else [0x8D, 0x85];
    assert (head + Imm32(n))[|head|..] == Imm32(n);
    ImmediateBack(n, head + Imm32(n), |head|);
  }

  predicate Transfers(i: Instr) { i.Je? || i.Jne? || i.Jmp? || i.Call? || i.Ret? || i.Mark? }

  /** The step of the machine is what the bytes of the instruction do. */
  lemma StepsAsEncoded(code: Code, i: Instr, s: State)
    requires !Transfers(i) && !i.MovEaxGlobal? && Encoding(i).Some?
    ensures Exec(code, i, s) == Stepped(i, s)
  {
    hide Exec, Stepped, Encoding;
    match i
    case MovEaxImm(_) | LeaEaxEbp(_) => ImmediateSteps(code, i, s);
    case LoadEax => LoadSteps(code, s);
    case StoreEbx => StoreSteps(code, s);
    case PushEax | PushEbp | PushEdi | PopEbx | PopEbp | PopEdi => StackSteps(code, i, s);
    case MovEdiEsp | MovEbpEdi | MovEaxEbx | MovEcxEax | MovEaxEdx | XchgEbxEax => MoveSteps(code, i, s);
    case AddEaxEbx | SubEbxEax | CmpEbxEax => SumSteps(code, i, s);
    case LogicEaxEbx(_) | TestEaxEax => LogicSteps(code, i, s);
    case NotEax | ImulEbx | Cdq => SingleSteps(code, i, s);
    case IdivEbx => DivisionSteps(code, s);
    case SalEaxCl | SarEaxCl => ShiftSteps(code, i, s);
    case SetAl(_) | MovzxEaxAl => ByteSteps(code, i, s);
    case _ =>
  }

  /** Does the jump with these bytes go to its label? */
  predicate Goes(b: seq<Octet>, s: State)
    requires |b| > 0
  {
    b[0] == 0xE9 || (b[0] == 0x0F && |b| == 2 && 0x80 <= b[1] <= 0x8F && Condition(b[1] - 0x80, s.flags.0, s.flags.1))
  }

  /** A jump goes to the first mark of its label, or on. */
  lemma JumpsAsEncoded(code: Code, i: Instr, s: State)
    requires i.Je? || i.Jne? || i.Jmp?
    ensures Exec(code, i, s) == if Goes(Encoding(i).value, s) then At(Find(code, i.l), s) else Some(s.(pc := s.pc + 1))
  {
  }

  /** A call leaves the address behind it on the stack. */
  lemma CallAsEncoded(code: Code, i: Instr, s: State)
    requires Encoding(i) == Some([0xE8])
    ensures i.Call? && Exec(code, i, s) == At(Find(code, FunctionL(i.f)), s.(stack := s.stack + [CodeAt(s.pc + 1)]))
  {
  }

  /** `ret` goes to the address on top of the stack. */
  lemma RetAsEncoded(code: Code, i: Instr, s: State)
    requires Encoding(i) == Some([0xC3])
    ensures Exec(code, i, s) == if s.stack == [] then None
      else match s.stack[|s.stack| - 1] case CodeAt(a) => Some(s.(pc := a, stack := s.stack[..|s.stack| - 1])) case _ => None
  {
  }

  function At(place: Option<nat>, s: State): Option<State> {
    match place
    case None => None
    case Some(i) => Some(s.(pc := i))
  }

  /** The word pushed last is the one at the address in esp, the ones before it lie four bytes higher each. */
  lemma PushedAt(s: State, i: nat)
    requires i < |s.stack|
    ensures var esp := Register(s, 4); esp.StackAt? && WordAt(s, StackAt(esp.offset + 4 * i)) == Some(s.stack[|s.stack| - 1 - i])
  {
  }
}
