/**
  `int2str` and `strtoint` of M2libc/bootstrappable.c: the integer printer, which fills a
  34-byte buffer from its end, and the reader, which accumulates in wrapping arithmetic.

  Strings are without their terminating NUL; a character past the end reads as NUL.
 */
module Numerals {
  import opened Options
  import opened M2Word
  import opened DoubleWord

  const TABLE := "0123456789ABCDEFGHIJKLMNOPQRSTUVWXYZ"
  const LOWER := "abcdefghijklmnopqrstuvwxyz"
  const MIN_INT: Word := -0x8000_0000

  function At(s: string, i: nat): char { if i < |s| then s[i] else '\0' }

  function Digit(d: nat): char
    requires d < 36
  {
    TABLE[d]
  }

  /** The numeral of n, most significant digit first. */
  function Digits(n: nat, base: nat): (s: string)
    requires 2 <= base <= 36
    ensures |s| > 0
    decreases n
  {
    hide Digit;
    if n < base then [Digit(n)] else Digits(n / base, base) + [Digit(n % base)]
  }

  /** What `int2str` prints. */
  function Numeral(x: Word, base: nat, signed: bool): string
    requires 2 <= base <= 36
  {
    if signed && base == 10 && x < 0 then "-" + Digits(-(x as int), 10) else Digits(Unsigned(x), base)
  }

  method InSet(c: char, s: string) returns (found: bool)
    ensures found == (c in s)
  {
    var i := 0;
    while i < |s|
      invariant i <= |s| && c !in s[..i]
    {
      if c == s[i] {
        return true;
      }
      i := i + 1;
    }
    assert s[..i] == s;
    found := false;
  }

  function FirstIndex(s: string, c: char): int {
    if s == [] then -1
    else if s[0] == c then 0
    else
      var r := FirstIndex(s[1..], c);
      if r == -1 then -1 else r + 1
  }

  lemma {:induction false} FirstIndexAt(s: string, c: char, i: nat)
    requires i <= |s| && c !in s[..i]
    ensures i < |s| && s[i] == c ==> FirstIndex(s, c) == i
    ensures i == |s| ==> FirstIndex(s, c) == -1
  {
    if i > 0 {
      assert s[0] in s[..i];
      assert s[1..][..i - 1] == s[..i][1..];
      FirstIndexAt(s[1..], c, i - 1);
    }
  }

  method IndexNumber(s: string, c: char) returns (i: int)
    requires s != []
    ensures i == FirstIndex(s, c)
  {
    i := 0;
    while s[i] != c
      invariant 0 <= i < |s| && c !in s[..i]
      decreases |s| - i
    {
      assert s[..i + 1] == s[..i] + [s[i]];
      i := i + 1;
      if i == |s| {
        FirstIndexAt(s, c, i);
        return -1;
      }
    }
    FirstIndexAt(s, c, i);
  }

  /** Clears the bit that distinguishes lower case. */
  function Upper(c: char): char { if c in LOWER then (c as int - 0x20) as char else c }

  method ToUpper(c: char) returns (u: char)
    ensures u == Upper(c)
  {
    var lower := InSet(c, LOWER);
    u := if lower then (c as int - 0x20) as char else c;
  }

  /** The reader from place i on, with n accumulated so far; 0 for anything outside the set. */
  function Read(set_: string, mult: nat, input: string, i: nat, n: Word): Word
    decreases |input| - i
  {
    if i >= |input| then n
    else if input[i] !in set_ then 0
    else
      var hold := FirstIndex(set_, Upper(input[i]));
      if hold == -1 then 0 else Read(set_, mult, input, i + 1, Wrap(Wrap(n * mult) + hold))
  }

  function ReadSigned(set_: string, mult: nat, input: string): Word {
    if At(input, 0) == '-' then Wrap(-(Read(set_, mult, input, 1, 0) as int)) else Read(set_, mult, input, 0, 0)
  }

  method SetReader(set_: string, mult: nat, input: string) returns (n: Word)
    requires set_ != [] && '\0' !in input && '\0' !in set_
    ensures n == ReadSigned(set_, mult, input)
  {
    hide Read, Wrap, Upper, FirstIndex;
    n := 0;
    var i := 0;
    var negative := false;
    if At(input, 0) == '-' {
      negative := true;
      i := i + 1;
    }
    ghost var start := i;
    var more := InSet(At(input, i), set_);
    while more
      invariant start <= i <= |input| && more == (At(input, i) in set_)
      invariant Read(set_, mult, input, i, n) == Read(set_, mult, input, start, 0)
      decreases |input| - i
    {
      ReadUnfold(set_, mult, input, i, n);
      n := Wrap(n * mult);
      var u := ToUpper(At(input, i));
      var hold := IndexNumber(set_, u);
      if hold == -1 {
        NegateZero();
        return 0;
      }
      n := Wrap(n + hold);
      i := i + 1;
      more := InSet(At(input, i), set_);
    }
    ReadUnfold(set_, mult, input, i, n);
    if At(input, i) != '\0' {
      NegateZero();
      return 0;
    }
    if negative {
      n := Wrap(0 - n as int);
    }
  }

  lemma NegateZero()
    ensures Wrap(0) == 0
  {
  }

  lemma ReadUnfold(set_: string, mult: nat, input: string, i: nat, n: Word)
    ensures Read(set_, mult, input, i, n) ==
      if i >= |input| then n
      else if input[i] !in set_ || FirstIndex(set_, Upper(input[i])) == -1 then 0
      else Read(set_, mult, input, i + 1, Wrap(Wrap(n * mult) + FirstIndex(set_, Upper(input[i]))))
  {
  }

  const BINARY := "01"
  const OCTAL := "01234567"
  const DECIMAL := "0123456789"
  const HEX := "0123456789ABCDEFabcdef"

  /** What `strtoint` reads, by prefix. */
  function ValueOf(a: string): Word {
    if a == "" then 0
    else if a[0] == '0' && At(a, 1) == 'b' then ReadSigned(BINARY, 2, a[2..])
    else if a[0] == '0' && At(a, 1) == 'x' then ReadSigned(HEX, 16, a[2..])
    else if a[0] == '0' then ReadSigned(OCTAL, 8, a[1..])
    else ReadSigned(DECIMAL, 10, a)
  }

  /** What a digit is worth, by its character code: the letters of either case go on behind the figures. */
  function Worth(c: char): int {
    if 48 <= c as int <= 57 then c as int - 48
    else if 65 <= c as int <= 90 then c as int - 55
    else if 97 <= c as int <= 122 then c as int - 87
    else -1
  }

  ghost predicate IsNumeral(s: string, base: nat) {
    forall i :: 0 <= i < |s| ==> 0 <= Worth(s[i]) < base
  }

  /** The sum of the digits, each times its power of the base. */
  ghost function Positional(s: string, base: nat): int {
    if s == [] then 0 else Positional(s[..|s| - 1], base) * base + Worth(s[|s| - 1])
  }

  /** A text of digits of the base, none in lower case, with no zero in front of others. */
  ghost predicate Proper(s: string, base: nat) {
    && s != "" && IsNumeral(s, base) && (|s| > 1 ==> s[0] != '0')
    && forall i :: 0 <= i < |s| ==> s[i] as int < 97
  }

  /** The text of x: of its unsigned value, or of its magnitude behind a sign. */
  ghost predicate Printed(s: string, x: Word, base: nat, signed: bool) {
    if signed && base == 10 && x < 0 then
      s != "" && s[0] == '-' && Proper(s[1..], 10) && Positional(s[1..], 10) == -(x as int)
    else
      Proper(s, base) && Positional(s, base) == x as int % 0x1_0000_0000
  }

  ghost function Magnitude(s: string, base: nat): int { if IsNumeral(s, base) then Positional(s, base) else 0 }

  ghost function SignedMagnitude(s: string, base: nat): int {
    if s != "" && s[0] == '-' then -Magnitude(s[1..], base) else Magnitude(s, base)
  }

  /** The number a text stands for: 0b, 0x and 0 announce binary, hexadecimal and octal digits. */
  ghost function Meant(a: string): int {
    if "0b" <= a then SignedMagnitude(a[2..], 2)
    else if "0x" <= a then SignedMagnitude(a[2..], 16)
    else if "0" <= a then SignedMagnitude(a[1..], 8)
    else SignedMagnitude(a, 10)
  }

  method StrToInt(a: string) returns (result: Word)
    requires '\0' !in a
    ensures result == ValueOf(a)
    ensures (result - Meant(a)) % 0x1_0000_0000 == 0
  {
    hide ReadSigned, Meant;
    ValueMeant(a);
    if a == "" {
      result := 0;
    } else if '0' == a[0] && 'b' == At(a, 1) {
      result := SetReader(BINARY, 2, a[2..]);
    } else if '0' == a[0] && 'x' == At(a, 1) {
      result := SetReader(HEX, 16, a[2..]);
    } else if '0' == a[0] {
      result := SetReader(OCTAL, 8, a[1..]);
    } else {
      result := SetReader(DECIMAL, 10, a);
    }
    if result < 0 {
      SignBit(result);
      result := Bitwise(LOr, Wrap(Shl(B - 1, 31)), result);
    }
  }

  /** The set holds exactly the digits below the base, of either case, and the lookup finds what they are worth. */
  ghost predicate SetOf(set_: string, base: nat) { forall c: char :: DigitOf(set_, base, c) }

  ghost predicate DigitOf(set_: string, base: nat, c: char) {
    && (c in set_ <==> 0 <= Worth(c) < base)
    && (c in set_ ==> FirstIndex(set_, Upper(c)) == Worth(c))
  }

  lemma FigureSet(set_: string, c: char)
    requires |set_| <= 10 && forall i :: 0 <= i < |set_| ==> set_[i] == TABLE[i]
    ensures DigitOf(set_, |set_|, c)
  {
    hide FirstIndex;
    var d := Worth(c);
    forall i | 0 <= i < |set_| ensures set_[i] as int == 48 + i {
      DigitCode(i);
    }
    if 0 <= d < |set_| {
      assert set_[d] == c;
      UpperCode(c);
      FirstIndexAt(set_, c, d);
    }
  }

  lemma HexSet(c: char)
    ensures DigitOf(HEX, 16, c)
  {
    hide FirstIndex, Upper;
    forall i | 0 <= i < |HEX| ensures HEX[i] as int == if i < 10 then 48 + i else if i < 16 then 55 + i else 81 + i {
      if i < 16 { DigitCode(i); }
    }
    var d := Worth(c);
    if 0 <= d < 16 {
      assert HEX[if c as int >= 97 then d + 6 else d] == c;
      UpperCode(c);
      FirstIndexAt(HEX, Upper(c), d);
    }
  }

  lemma UpperCode(c: char)
    ensures Upper(c) as int == if 97 <= c as int <= 122 then c as int - 32 else c as int
  {
    forall i | 0 <= i < |LOWER| ensures LOWER[i] as int == 97 + i {
    }
    if 97 <= c as int <= 122 { assert LOWER[c as int - 97] == c; }
  }

  lemma SetsMeant()
    ensures SetOf(BINARY, 2) && SetOf(OCTAL, 8) && SetOf(DECIMAL, 10) && SetOf(HEX, 16)
  {
    hide DigitOf;
    forall c: char ensures DigitOf(BINARY, 2, c) && DigitOf(OCTAL, 8, c) && DigitOf(DECIMAL, 10, c) && DigitOf(HEX, 16, c) {
      FigureSet(BINARY, c);
      FigureSet(OCTAL, c);
      FigureSet(DECIMAL, c);
      HexSet(c);
    }
  }

  /** Reading on from place i, with the digits before it accumulated. */
  lemma {:induction false} ReadMeans(set_: string, base: nat, input: string, start: nat, i: nat)
    requires SetOf(set_, base) && start <= i <= |input| && IsNumeral(input[start..i], base)
    ensures Read(set_, base, input, i, Wrap(Positional(input[start..i], base))) == Wrap(Magnitude(input[start..], base))
    decreases |input| - i
  {
    hide Wrap, FirstIndex, Upper, Read, Worth;
    var n := Wrap(Positional(input[start..i], base));
    ReadUnfold(set_, base, input, i, n);
    if i == |input| {
      assert input[start..i] == input[start..];
    } else {
      assert DigitOf(set_, base, input[i]);
      if input[i] in set_ {
        var next := input[start..i + 1];
        assert next[..|next| - 1] == input[start..i];
        WrapStep(Positional(input[start..i], base), base, Worth(input[i]));
        ReadMeans(set_, base, input, start, i + 1);
      } else {
        assert input[start..][i - start] == input[i];
        WrapSmall(0);
      }
    }
  }

  lemma SignedMeans(set_: string, base: nat, input: string)
    requires SetOf(set_, base)
    ensures ReadSigned(set_, base, input) == Wrap(SignedMagnitude(input, base))
  {
    hide Wrap, Read, SetOf, IsNumeral, Magnitude;
    WrapSmall(0);
    if input != "" && input[0] == '-' {
      NothingRead(input, 1, base);
      ReadMeans(set_, base, input, 1, 1);
      NegateWrap(Magnitude(input[1..], base));
    } else {
      NothingRead(input, 0, base);
      ReadMeans(set_, base, input, 0, 0);
      assert input[0..] == input;
    }
  }

  lemma NothingRead(input: string, i: nat, base: nat)
    requires i <= |input|
    ensures IsNumeral(input[i..i], base) && Positional(input[i..i], base) == 0
  {
    assert input[i..i] == "";
  }

  lemma NegateWrap(x: int)
    ensures Wrap(-(Wrap(x) as int)) == Wrap(-x)
  {
    var k := (x - Wrap(x)) / B;
    assert x - Wrap(x) == k * B;
    WrapShift(-(Wrap(x) as int), k);
  }

  lemma ValueMeant(a: string)
    ensures ValueOf(a) == Wrap(Meant(a))
    ensures (ValueOf(a) - Meant(a)) % 0x1_0000_0000 == 0
  {
    hide Wrap, ReadSigned, SignedMagnitude, SetOf;
    SetsMeant();
    if |a| >= 1 {
      SignedMeans(OCTAL, 8, a[1..]);
      SignedMeans(DECIMAL, 10, a);
      if |a| >= 2 {
        SignedMeans(BINARY, 2, a[2..]);
        SignedMeans(HEX, 16, a[2..]);
      }
    } else {
      WrapSmall(0);
      NothingMeant();
    }
    WrapMeans(Meant(a));
  }

  lemma NothingMeant()
    ensures SignedMagnitude("", 10) == 0
  {
  }

  lemma WrapMeans(x: int)
    ensures (Wrap(x) - x) % 0x1_0000_0000 == 0
  {
  }

  /** On a 32-bit host the sign extension at the end changes nothing: the bit is set already. */
  lemma SignBit(x: Word)
    requires x < 0
    ensures Bitwise(LOr, Wrap(Shl(B - 1, 31)), x) == x
  {
    hide Pow2, Bits;
    PowerOfTwo32();
    assert Shl(B - 1, 31) == 0x8000_0000;
    assert Unsigned(Wrap(0x8000_0000)) == 0x8000_0000;
    OrTopBit(Unsigned(x), 31);
    PowStep(32);
  }

  lemma {:induction false} OrTopBit(x: nat, n: nat)
    requires Pow2(n) <= x < 2 * Pow2(n)
    ensures Bits(LOr, Pow2(n), x, n + 1) == x
  {
    if n > 0 {
      OrTopBit(x / 2, n - 1);
      assert Pow2(n) % 2 == 0 && Pow2(n) / 2 == Pow2(n - 1);
    }
  }

  /** Fills the buffer from its end; every write is inside, for every base. */
  method Int2Str(x: Word, base: int, signed: bool) returns (r: Option<string>)
    ensures r == if 2 <= base <= 36 then Some(Numeral(x, base, signed)) else None
    ensures r.Some? ==> Printed(r.value, x, base, signed)
  {
    if !(1 < base) || !(37 > base) {
      return None;
    }
    hide Digits, Digit, Pow2, Bits, Wrap, Unsigned, LowPart, Numeral;
    hide Printed;
    PrintedNumeral(x, base, signed);
    NumeralIs(x, base, signed);
    var p := new char[34](_ => '\0');
    var i: nat;
    var sign := false;
    if signed && base == 10 && x < 0 {
      i := LowPart(x);
      LowBits(x);
      if i == 0 {
        LeastNumeral();
        return Some("-2147483648");
      }
      sign := true;
    } else {
      i := Unsigned(x);
    }
    var at := FillDigits(p, i, base);
    if sign {
      ghost var tail := p[at + 1..33];
      p[at] := '-';
      assert p[at..33] == ['-'] + tail;
      at := at - 1;
    }
    r := Some(p[at + 1..33]);
  }

  /** `-x & 0x7FFFFFFF`. */
  function LowPart(x: Word): nat { Wrap(-(x as int)) % 0x8000_0000 }

  lemma NumeralIs(x: Word, base: nat, signed: bool)
    requires 2 <= base <= 36
    ensures Numeral(x, base, signed) ==
      if signed && base == 10 && x < 0 then "-" + Digits(-(x as int), 10) else Digits(Unsigned(x), base)
  {
  }

  lemma LowBits(x: Word)
    requires x < 0
    ensures LowPart(x) == if x == MIN_INT then 0 else -(x as int)
  {
  }

  /** The digit loop: writes from place 32 downwards and returns the place before the first digit. */
  method FillDigits(p: array<char>, n: nat, base: int) returns (at: int)
    requires p.Length == 34 && n < B && 2 <= base <= 36
    modifies p
    ensures 0 <= at <= 31 && p[33] == old(p[33])
    ensures p[at + 1..33] == Digits(n, base)
  {
    hide Digits, Digit, Pow2;
    at := 32;
    var i: nat := n;
    ghost var k := 0;
    PowZero();
    while true
      invariant at == 32 - k && 0 <= k <= 31 && p[33] == old(p[33])
      invariant i * Pow2(k) <= n && (k > 0 ==> i > 0)
      invariant Digits(n, base) == Digits(i, base) + p[at + 1..33]
      decreases i
    {
      DigitsStep(i, base);
      HalfStep(i, base, k, n);
      ghost var tail := p[at + 1..33];
      p[at] := Digit(i % base);
      assert p[at..33] == [p[at]] + tail;
      at := at - 1;
      i := i / base;
      k := k + 1;
      if !(0 < i) {
        assert Digits(n, base) == p[at + 1..33] && 0 <= at;
        break;
      }
      BelowWord(i, k, n);
    }
  }

  lemma DigitsStep(i: nat, base: nat)
    requires 2 <= base <= 36
    ensures Digits(i, base) == (if i < base then [] else Digits(i / base, base)) + [Digit(i % base)]
    ensures i < base <==> i / base == 0
    ensures i > 0 ==> i / base < i
  {
    hide Digit;
    QuotientBounds(i, base);
  }

  lemma HalfStep(i: nat, base: nat, k: nat, n: nat)
    requires 2 <= base && i * Pow2(k) <= n
    ensures i / base * Pow2(k + 1) <= n
  {
    QuotientBounds(i, base);
    PowStep(k + 1);
    MulMonotone(2 * (i / base), i, Pow2(k));
    assert i / base * (2 * Pow2(k)) == 2 * (i / base) * Pow2(k);
  }

  lemma BelowWord(i: nat, k: nat, n: nat)
    requires i > 0 && i * Pow2(k) <= n < B
    ensures k <= 31
  {
    hide Pow2;
    MulMonotone(1, i, Pow2(k));
    PowerOfTwo32();
    if k >= 32 { PowMonotone(32, k); }
  }

  lemma LeastNumeral()
    ensures "-" + Digits(0x8000_0000, 10) == "-2147483648"
  {
    UpperHalf();
    assert Digits(214748, 10) == "214748";
    assert Digits(2147483, 10) == "2147483";
    assert Digits(21474836, 10) == "21474836";
    assert Digits(214748364, 10) == "214748364";
  }

  lemma UpperHalf()
    ensures Digits(21474, 10) == "21474"
  {
    assert Digits(2, 10) == "2";
    assert Digits(21, 10) == "21";
    assert Digits(214, 10) == "214";
    assert Digits(2147, 10) == "2147";
  }

  /** The digits of the base are in the set, at the place of their value. */
  ghost predicate Reads(set_: string, base: nat) {
    2 <= base <= 36 && forall d :: 0 <= d < base ==> ReadsDigit(set_, d)
  }

  predicate ReadsDigit(set_: string, d: nat)
    requires d < 36
  {
    Digit(d) in set_ && FirstIndex(set_, Upper(Digit(d))) == d
  }

  lemma DigitCode(d: nat)
    requires d < 36
    ensures Digit(d) as int == if d < 10 then 48 + d else 55 + d
    ensures Digit(d) !in LOWER && Upper(Digit(d)) == Digit(d)
  {
  }

  lemma SetReads(set_: string, base: nat)
    requires 2 <= base <= 36 && SetOf(set_, base)
    ensures Reads(set_, base)
  {
    hide Digit, Worth, Upper, FirstIndex;
    forall d | 0 <= d < base ensures ReadsDigit(set_, d) {
      DigitWorth(d);
      assert DigitOf(set_, base, Digit(d));
    }
  }

  lemma SetsRead()
    ensures Reads(BINARY, 2) && Reads(OCTAL, 8) && Reads(DECIMAL, 10) && Reads(HEX, 16)
  {
    hide SetOf, Reads;
    SetsMeant();
    SetReads(BINARY, 2);
    SetReads(OCTAL, 8);
    SetReads(DECIMAL, 10);
    SetReads(HEX, 16);
  }

  lemma WrapShift(x: int, k: int)
    ensures Wrap(x - k * B) == Wrap(x)
  {
  }

  /** Wrapping in every step is wrapping once. */
  lemma WrapStep(q: int, base: nat, d: int)
    ensures Wrap(Wrap(Wrap(q) * base) + d) == Wrap(q * base + d)
  {
    var k := (q - Wrap(q)) / B;
    assert q - Wrap(q) == k * B;
    WrapShift(q * base, k * base);
    assert Wrap(q) * base == q * base - k * base * B;
    var m := (q * base - Wrap(q * base)) / B;
    WrapShift(q * base + d, m);
    assert Wrap(q * base) + d == q * base + d - m * B;
  }

  /** The reader undoes the printer, from any place of a longer input. */
  lemma {:induction false} ReadDigits(set_: string, base: nat, before: string, n: nat, after: string)
    requires Reads(set_, base)
    ensures var s := Digits(n, base); var input := before + s + after;
      Read(set_, base, input, |before|, 0) == Read(set_, base, input, |before| + |s|, Wrap(n))
    decreases n
  {
    hide Digit, Wrap, FirstIndex, Upper, Read, Digits;
    var s, input := Digits(n, base), before + Digits(n, base) + after;
    DigitsStep(n, base);
    var d := n % base;
    assert ReadsDigit(set_, d);
    WrapSmall(0);
    if n < base {
      ReadStep(set_, base, input, |before|, 0, d);
      WrapStep(0, base, d);
      assert n / base == 0 && d == n;
    } else {
      var q := n / base;
      var t := [Digit(d)] + after;
      assert before + Digits(q, base) + t == input;
      ReadDigits(set_, base, before, q, t);
      ReadStep(set_, base, input, |before| + |Digits(q, base)|, Wrap(q), d);
      WrapStep(q, base, d);
      assert q * base + d == n;
    }
  }

  lemma WrapSmall(x: Word)
    ensures Wrap(x) == x
  {
  }

  lemma ReadStep(set_: string, mult: nat, input: string, i: nat, n: Word, d: nat)
    requires i < |input| && d < 36 && input[i] == Digit(d) && ReadsDigit(set_, d)
    ensures Read(set_, mult, input, i, n) == Read(set_, mult, input, i + 1, Wrap(Wrap(n * mult) + d))
  {
  }

  lemma ReadAll(set_: string, base: nat, before: string, n: nat)
    requires Reads(set_, base)
    ensures Read(set_, base, before + Digits(n, base), |before|, 0) == Wrap(n)
  {
    hide Read, Digits, Wrap, Digit, FirstIndex, Upper, ReadsDigit;
    ReadDigits(set_, base, before, n, "");
    ReadEnd(set_, base, before + Digits(n, base), |before + Digits(n, base)|, Wrap(n));
    assert before + Digits(n, base) + "" == before + Digits(n, base);
  }

  lemma ReadEnd(set_: string, mult: nat, input: string, i: nat, n: Word)
    requires i >= |input|
    ensures Read(set_, mult, input, i, n) == n
  {
  }

  /** The first digit of a positive number is neither zero nor a sign; no digit is an x or a b below base 12. */
  lemma {:induction false} FirstDigit(n: nat, base: nat)
    requires 2 <= base <= 16
    ensures n > 0 ==> Digits(n, base)[0] != '0'
    ensures Digits(n, base)[0] != '-' && Digits(n, base)[0] != 'x' && Digits(n, base)[0] != 'b'
    decreases n
  {
    hide Digit;
    DigitsStep(n, base);
    DigitCode(n % base);
    if n >= base { FirstDigit(n / base, base); }
  }

  lemma DigitWorth(d: nat)
    requires d < 36
    ensures Worth(Digit(d)) == d && Digit(d) as int < 97 && (d > 0 ==> Digit(d) != '0')
  {
    hide Upper;
    DigitCode(d);
  }

  /** A numeral has the value, with digits below the base, none in lower case, and no leading zero. */
  lemma {:induction false} DigitsMean(n: nat, base: nat)
    requires 2 <= base <= 36
    ensures Proper(Digits(n, base), base) && Positional(Digits(n, base), base) == n
    ensures n > 0 ==> Digits(n, base)[0] != '0'
    decreases n
  {
    hide Digit, Digits, Worth;
    DigitsStep(n, base);
    DigitWorth(n % base);
    var s := Digits(n, base);
    if n >= base {
      DigitsMean(n / base, base);
      assert s[..|s| - 1] == Digits(n / base, base);
    } else {
      assert s[..0] == "";
      assert Positional(s[..0], base) == 0;
    }
  }

  lemma PrintedNumeral(x: Word, base: nat, signed: bool)
    requires 2 <= base <= 36
    ensures Printed(Numeral(x, base, signed), x, base, signed)
  {
    hide Digits, Positional, Proper;
    if signed && base == 10 && x < 0 {
      DigitsMean(-(x as int), 10);
      assert ("-" + Digits(-(x as int), 10))[1..] == Digits(-(x as int), 10);
    } else {
      DigitsMean(Unsigned(x), base);
    }
  }

  /** Hexadecimal digits read alike in either case. */
  lemma HexAnyCase(x: Word, s: string)
    requires |s| == |Numeral(x, 16, false)|
    requires forall i :: 0 <= i < |s| ==> Worth(s[i]) == Worth(Numeral(x, 16, false)[i])
    ensures ValueOf("0x" + s) == x
  {
    hide Digits, Worth, Wrap;
    var t := Numeral(x, 16, false);
    DigitsMean(Unsigned(x), 16);
    SamePositional(s, t, 16);
    assert ("0x" + s)[2..] == s;
    if |s| > 0 && s[0] == '-' { NoSignDigit(s[0]); assert false; }
    ValueMeant("0x" + s);
    assert "0x" <= "0x" + s;
    WrapUnsigned(x);
  }

  lemma NoSignDigit(c: char)
    ensures c == '-' ==> Worth(c) == -1
  {
  }

  lemma {:induction false} SamePositional(s: string, t: string, base: nat)
    requires |s| == |t| && forall i :: 0 <= i < |s| ==> Worth(s[i]) == Worth(t[i])
    ensures Positional(s, base) == Positional(t, base) && (IsNumeral(s, base) <==> IsNumeral(t, base))
  {
    if s != [] { SamePositional(s[..|s| - 1], t[..|t| - 1], base); }
  }

  /** Printing a word in decimal, with its sign, and reading it gives the word back; so does the least word. */
  lemma DecimalRoundTrip(x: Word)
    ensures ValueOf(Numeral(x, 10, true)) == x
  {
    hide Digits, Read, Reads, Digit;
    SetsRead();
    if x < 0 {
      var n: nat := -(x as int);
      FirstDigit(n, 10);
      ReadAll(DECIMAL, 10, "-", n);
      NegateWrapped(x);
    } else {
      FirstDigit(x, 10);
      if x == 0 {
        assert Digits(0, 10) == "0" by { DigitsStep(0, 10); DigitCode(0); }
        assert ("0")[1..] == "";
        ReadEnd(OCTAL, 8, "", 0, 0);
      } else {
        ReadAll(DECIMAL, 10, "", x);
        assert "" + Digits(x, 10) == Digits(x, 10);
      }
    }
  }

  lemma NegateWrapped(x: Word)
    ensures Wrap(-(Wrap(-(x as int)) as int)) == x
  {
  }

  /** The same for the unsigned numerals with the prefixes that the reader knows. */
  lemma PrefixRoundTrip(x: Word)
    ensures ValueOf("0b" + Numeral(x, 2, false)) == x
    ensures ValueOf("0" + Numeral(x, 8, false)) == x
    ensures ValueOf("0x" + Numeral(x, 16, false)) == x
  {
    hide Digits, Read, Reads, Digit;
    SetsRead();
    var n := Unsigned(x);
    WrapUnsigned(x);
    FirstDigit(n, 2);
    FirstDigit(n, 8);
    FirstDigit(n, 16);
    ReadAll(BINARY, 2, "", n);
    ReadAll(OCTAL, 8, "", n);
    ReadAll(HEX, 16, "", n);
    assert "" + Digits(n, 2) == Digits(n, 2) && "" + Digits(n, 8) == Digits(n, 8) && "" + Digits(n, 16) == Digits(n, 16);
    assert ("0b" + Digits(n, 2))[2..] == Digits(n, 2);
    assert ("0" + Digits(n, 8))[1..] == Digits(n, 8);
    assert ("0x" + Digits(n, 16))[2..] == Digits(n, 16);
  }

  lemma WrapUnsigned(x: Word)
    ensures Wrap(Unsigned(x)) == x
  {
  }
}
