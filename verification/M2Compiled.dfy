/**
  The whole way once: from the tokens of a program to a register of the machine.
 */
module M2Compiled {
  import opened Options
  import opened M2Word
  import opened M2Machine
  import opened M2Codegen
  import opened M2Simulation
  import opened M2Correct
  import opened M2Program
  import opened M2Text
  import opened M2LabelText
  import opened LabelText
  import R = M2Rules
  import E = M2Examples
  import G = M2Grammar
  import W = M2Whole
  import Src = M2Source

  lemma OneFunctionApart(d: Src.Fun)
    requires Count(d.body) <= LIMIT
    ensures Distinct([d]) && Small([d]) && NoClash([d])
  {
    hide NoClash, Extension;
    assert (set i | 0 <= i < |[d]| :: [d][i].name) == {d.name} by { assert [d][0] == d; }
    NamesApartSuffice([d]);
  }

  lemma OneLabel()
    ensures Count(E.GCD_FUN.body) == 1
  {
    assert Count(E.GCD_IF) == 1 + Count(E.GCD_IF.thn) + Count(E.GCD_IF.els.value) == 1;
    assert [E.GCD_IF][1..] == [] && CountSeq([]) == 0;
  }

  /**
    gcd called in the text that is emitted for its tokens, with a and b on the stack: eax holds a number with exactly
    the common divisors of a and b, and everything below the arguments is as it was.
   */
  lemma GcdCompiled(p: Src.Program, a: Word, b: Word, g: Src.Globals, s: State, below: seq<Value>, ra: nat) returns (t: State, d: Word)
    requires G.Declarations(G.NO_NAMES, E.GCD, 0) == G.Ok(p, |E.GCD|) && a >= 0 && b >= 0
    requires FindText(ProgramCode(p), "FUNCTION_gcd") == Some(s.pc)
    requires s.stack == below + [Int(a), Int(b)] + [CodeAt(ra)] && s.ebp == StackAt(-4 * |below|)
    requires RelGlobals(g, s.globals)
    ensures TextReaches(ProgramCode(p), s, t)
    ensures t.pc == ra && t.edi == s.edi && t.stack == below + [Int(a), Int(b)] && t.eax == Int(d)
    ensures d >= 0 && forall k: nat :: E.Divides(k, a) && E.Divides(k, b) <==> E.Divides(k, d)
  {
    hide Src.CallFun, ProgramCode, G.Declarations, Small, NoClash, FindText, TextReaches, E.Divides;
    d := E.GcdProgram(a, b, g);
    var vs, args := [Some(a), Some(b)], [Int(a), Int(b)];
    var r := Src.Result(Some(d), g, [Src.Cell("a", Some(a)), Src.Cell("b", Some(b))]);
    var fuel: nat :| Src.CallFun(fuel, p, "gcd", vs, g) == r;
    E.GcdParsed();
    OneLabel();
    OneFunctionApart(E.GCD_FUN);
    assert "FUNCTION_" + "gcd" == "FUNCTION_gcd";
    var out;
    t, out := W.SourceFileCorrect(E.GCD, fuel, "gcd", vs, g, s, below, ra, args);
    assert out == [Int(a), Int(b)];
  }
}
