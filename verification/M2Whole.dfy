/**
  A whole source file: what the compiler accepts it translates correctly, and the depths it
  assigns one declaration after another are the frame offsets that the code uses.
 */
module M2Whole {
  import opened Options
  import opened M2Word
  import opened M2Machine
  import opened M2Codegen
  import opened M2Simulation
  import opened M2Correct
  import opened M2Program
  import opened M2Text
  import G = M2Grammar
  import Src = M2Source

  /**
    For every sequence of tokens that makes a program with distinct function names, label numbers
    that can be printed and no labels that clash: calling f in the emitted text, where labels are
    spellings, does what calling f does in the source semantics.
   */
  lemma SourceFileCorrect(tokens: seq<G.Token>, fuel: nat, f: string, vs: seq<Src.Num>, g: Src.Globals,
                          s: State, below: seq<Value>, ra: nat, args: seq<Value>) returns (t: State, out: seq<Value>)
    requires G.Declarations(G.NO_NAMES, tokens, 0).Ok?
    requires var p := G.Declarations(G.NO_NAMES, tokens, 0).v; Distinct(p) && Small(p) && NoClash(p)
    requires Src.CallFun(fuel, G.Declarations(G.NO_NAMES, tokens, 0).v, f, vs, g).Result?
    requires FindText(ProgramCode(G.Declarations(G.NO_NAMES, tokens, 0).v), "FUNCTION_" + f) == Some(s.pc)
    requires s.stack == below + args + [CodeAt(ra)] && s.ebp == StackAt(-4 * |below|)
    requires RefinesAll(vs, args) && RelGlobals(g, s.globals)
    ensures var p := G.Declarations(G.NO_NAMES, tokens, 0).v; var r := Src.CallFun(fuel, p, f, vs, g);
      && TextReaches(ProgramCode(p), s, t) && t.pc == ra && t.edi == s.edi
      && t.stack == below + out && |out| == |args| && RefinesCells(r.args, out)
      && RelGlobals(r.g, t.globals) && Refines(r.v, t.eax)
  {
    hide Src.CallFun, ProgramCode, G.Declarations, Small, NoClash, FindText, TextReaches;
    t, out := TextCorrect(G.Declarations(G.NO_NAMES, tokens, 0).v, fuel, f, vs, g, s, below, ra, args);
  }

  /** `collect_arguments`: the depth of one more argument. */
  function NextArgument(arguments: seq<int>): int {
    if arguments == [] then -4 else arguments[|arguments| - 1] - REGISTER_SIZE
  }

  /** `collect_local`: the depth of one more local variable. */
  function NextLocal(fname: string, arguments: seq<int>, locals: seq<int>): int {
    if fname == "main" && locals == [] then -20
    else if arguments == [] && locals == [] then -8
    else if locals == [] then arguments[|arguments| - 1] - 8
    else locals[|locals| - 1] - REGISTER_SIZE
  }

  function Arguments(n: nat): (ds: seq<int>)
    ensures |ds| == n
  {
    if n == 0 then [] else Arguments(n - 1) + [NextArgument(Arguments(n - 1))]
  }

  function Locals(fname: string, arguments: seq<int>, n: nat): (ds: seq<int>)
    ensures |ds| == n
  {
    if n == 0 then [] else
      var before := Locals(fname, arguments, n - 1);
      before + [NextLocal(fname, arguments, before)]
  }

  /** Declared one after the other, arguments and locals get the depths that `lea` instructions name. */
  lemma {:induction false} DepthsAsCollected(env: Env)
    ensures forall i :: 0 <= i < |env.args| ==> Arguments(|env.args|)[i] == ArgDepth(i)
    ensures forall i :: 0 <= i < |env.locals| ==> Locals(env.fname, Arguments(|env.args|), |env.locals|)[i] == LocalDepth(env, i)
  {
    ArgumentDepths(|env.args|);
    LocalDepths(env, |env.locals|);
  }

  lemma {:induction false} ArgumentDepths(n: nat)
    ensures forall i :: 0 <= i < n ==> Arguments(n)[i] == ArgDepth(i)
  {
    if n > 0 { ArgumentDepths(n - 1); }
  }

  lemma {:induction false} LocalDepths(env: Env, n: nat)
    ensures forall i :: 0 <= i < n ==> Locals(env.fname, Arguments(|env.args|), n)[i] == LocalDepth(env, i)
  {
    if n > 0 {
      ArgumentDepths(|env.args|);
      LocalDepths(env, n - 1);
    }
  }
}
