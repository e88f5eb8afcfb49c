/**
  The source meaning that the one-pass generator is proved against, told another way: where
  `&&` and `||` stop, and what two loops compute.
 */
module OtccMeaning {
  import opened Options
  import opened OtccCode

  /** The state after the first k operands have been evaluated one after the other. */
  function After<S>(sem: Meaning<S>, es: seq<Expr>, k: nat, m: Machine<S>): Machine<S>
    requires k <= |es|
  {
    if k == 0 then m else EvalExpr(sem, es[k - 1], After(sem, es, k - 1, m))
  }

  lemma {:induction false} AfterFirst<S>(sem: Meaning<S>, es: seq<Expr>, k: nat, m: Machine<S>)
    requires 1 <= k <= |es|
    ensures After(sem, es, k, m) == After(sem, es[1..], k - 1, EvalExpr(sem, es[0], m))
    decreases k
  {
    if k > 1 {
      AfterFirst(sem, es, k - 1, m);
      assert es[1..][k - 2] == es[k - 1];
    }
  }

  /** `e1 && e2 ...` evaluates up to the first operand that is 0 and is then 0; without one it evaluates all and is 1. */
  lemma {:induction false} AndStops<S>(sem: Meaning<S>, es: seq<Expr>, k: nat, m: Machine<S>)
    requires |es| >= 2 && k <= |es| && forall j :: 1 <= j <= k ==> After(sem, es, j, m).acc != 0
    ensures k == |es| ==> EvalExpr(sem, Logic(0, es), m) == After(sem, es, k, m).(acc := 1)
    ensures k < |es| && After(sem, es, k + 1, m).acc == 0 ==> EvalExpr(sem, Logic(0, es), m) == After(sem, es, k + 1, m)
  {
    AndFrom(sem, es, k, m);
  }

  lemma {:induction false} AndFrom<S>(sem: Meaning<S>, es: seq<Expr>, k: nat, m: Machine<S>)
    requires k <= |es| && forall j :: 1 <= j <= k ==> After(sem, es, j, m).acc != 0
    ensures k == |es| ==> EvalLogic(sem, 0, es, m) == After(sem, es, k, m).(acc := 1)
    ensures k < |es| && After(sem, es, k + 1, m).acc == 0 ==> EvalLogic(sem, 0, es, m) == After(sem, es, k + 1, m)
    decreases es
  {
    hide EvalExpr;
    if es != [] {
      var r := EvalExpr(sem, es[0], m);
      assert After(sem, es, 1, m) == r by { assert After(sem, es, 0, m) == m; }
      if k > 0 {
        forall j | 1 <= j <= |es| ensures After(sem, es, j, m) == After(sem, es[1..], j - 1, r) {
          AfterFirst(sem, es, j, m);
        }
        forall j | 1 <= j <= k - 1 ensures After(sem, es[1..], j, r).acc != 0 {
          assert After(sem, es, j + 1, m).acc != 0;
        }
        AndFrom(sem, es[1..], k - 1, r);
      }
    }
  }

  /** `e1 || e2 ...` evaluates up to the first operand that is not 0 and is then 1; without one it is 0. */
  lemma {:induction false} OrStops<S>(sem: Meaning<S>, es: seq<Expr>, k: nat, m: Machine<S>)
    requires |es| >= 2 && k <= |es| && forall j :: 1 <= j <= k ==> After(sem, es, j, m).acc == 0
    ensures k == |es| ==> EvalExpr(sem, Logic(1, es), m) == After(sem, es, k, m)
    ensures k < |es| && After(sem, es, k + 1, m).acc != 0 ==> EvalExpr(sem, Logic(1, es), m) == After(sem, es, k + 1, m).(acc := 1)
  {
    OrFrom(sem, es, k, m);
  }

  lemma {:induction false} OrFrom<S>(sem: Meaning<S>, es: seq<Expr>, k: nat, m: Machine<S>)
    requires k <= |es| && forall j :: 1 <= j <= k ==> After(sem, es, j, m).acc == 0
    ensures k == |es| > 0 ==> EvalLogic(sem, 1, es, m) == After(sem, es, k, m)
    ensures es == [] ==> EvalLogic(sem, 1, es, m) == m.(acc := 0)
    ensures k < |es| && After(sem, es, k + 1, m).acc != 0 ==> EvalLogic(sem, 1, es, m) == After(sem, es, k + 1, m).(acc := 1)
    decreases es
  {
    hide EvalExpr;
    if es != [] {
      var r := EvalExpr(sem, es[0], m);
      assert After(sem, es, 1, m) == r by { assert After(sem, es, 0, m) == m; }
      if k > 0 {
        forall j | 1 <= j <= |es| ensures After(sem, es, j, m) == After(sem, es[1..], j - 1, r) {
          AfterFirst(sem, es, j, m);
        }
        forall j | 1 <= j <= k - 1 ensures After(sem, es[1..], j, r).acc == 0 {
          assert After(sem, es, j + 1, m).acc == 0;
        }
        OrFrom(sem, es[1..], k - 1, r);
      }
    }
  }

  // ----- two loops that add up n, n - 1, ... -----

  /** Two variables, and atoms that load n, add n to the sum, and count n down. */
  datatype Pair = Pair(n: int, sum: int)

  function Acts(a: Atom, acc: int, s: Pair): (int, Pair) {
    if a.id == 0 then (s.n, s)
    else if a.id == 1 then (acc, s.(sum := s.sum + s.n))
    else (acc, s.(n := s.n - 1))
  }

  const LOAD := Plain(Atom(0, 1))
  const ADD := Plain(Atom(1, 1))
  const DOWN := Plain(Atom(2, 1))

  /** while (n) { sum = sum + n; n = n - 1; } */
  const COUNT_DOWN := While(LOAD, Block([Eval(ADD), Eval(DOWN)]))

  /** for (;; n = n - 1) if (n) sum = sum + n; else break; */
  const ADD_UP := For(None, None, Some(DOWN), If(LOAD, Eval(ADD), Some(Break)))

  function Triangle(n: nat): nat { n * (n + 1) / 2 }

  lemma TriangleStep(n: nat)
    requires n > 0
    ensures Triangle(n) == n + Triangle(n - 1)
  {
    assert n * (n + 1) == (n - 1) * n + 2 * n;
    HalfOfSum((n - 1) * n, n);
  }

  lemma HalfOfSum(x: int, n: int)
    ensures (x + 2 * n) / 2 == x / 2 + n
  {
  }

  lemma {:induction false} CountDown(n: nat, acc: int, sum: int)
    ensures Run(Acts, n + 1, COUNT_DOWN, Machine(acc, Pair(n, sum))) == Outcome(Through, Machine(0, Pair(0, sum + Triangle(n))))
    decreases n
  {
    hide Triangle;
    var m := Machine(acc, Pair(n, sum));
    var r := Machine(n, Pair(n, sum));
    assert EvalExpr(Acts, LOAD, m) == r;
    if n == 0 {
      assert Triangle(0) == 0 by { TriangleZero(); }
    } else {
      TriangleStep(n);
      BodyRuns(n + 1, r);
      CountDown(n - 1, n, sum + n);
    }
  }

  lemma TriangleZero()
    ensures Triangle(0) == 0
  {
  }

  lemma BodyRuns(fuel: nat, r: Machine<Pair>)
    ensures Run(Acts, fuel, Block([Eval(ADD), Eval(DOWN)]), r)
      == Outcome(Through, Machine(r.acc, Pair(r.store.n - 1, r.store.sum + r.store.n)))
  {
    var a := Machine(r.acc, Pair(r.store.n, r.store.sum + r.store.n));
    var b := Machine(r.acc, Pair(r.store.n - 1, r.store.sum + r.store.n));
    assert [Eval(ADD), Eval(DOWN)][1..] == [Eval(DOWN)] && [Eval(DOWN)][1..] == [];
    assert Run(Acts, fuel, Eval(ADD), r) == Outcome(Through, a) && Run(Acts, fuel, Eval(DOWN), a) == Outcome(Through, b);
    assert RunAll(Acts, fuel, [], b) == Outcome(Through, b);
    assert RunAll(Acts, fuel, [Eval(DOWN)], a) == Outcome(Through, b);
  }

  lemma {:induction false} AddUp(n: nat, acc: int, sum: int)
    ensures Run(Acts, n + 1, ADD_UP, Machine(acc, Pair(n, sum))) == Outcome(Through, Machine(0, Pair(0, sum + Triangle(n))))
  {
    AddUpFrom(n, acc, sum);
  }

  lemma {:induction false} AddUpFrom(n: nat, acc: int, sum: int)
    ensures RunFor(Acts, n + 1, None, Some(DOWN), ADD_UP.body, Machine(acc, Pair(n, sum)))
      == Outcome(Through, Machine(0, Pair(0, sum + Triangle(n))))
    decreases n
  {
    hide Triangle;
    var m := Machine(acc, Pair(n, sum));
    var r := Machine(n, Pair(n, sum));
    assert EvalExpr(Acts, LOAD, m) == r;
    if n == 0 {
      assert Triangle(0) == 0 by { TriangleZero(); }
      assert Run(Acts, 1, ADD_UP.body, m) == Outcome(Broke, r);
    } else {
      TriangleStep(n);
      assert EvalExpr(Acts, ADD, r) == Machine(n, Pair(n, sum + n));
      assert Run(Acts, n + 1, Eval(ADD), r) == Outcome(Through, Machine(n, Pair(n, sum + n)));
      assert Run(Acts, n + 1, ADD_UP.body, m) == Outcome(Through, Machine(n, Pair(n, sum + n)));
      assert Optional(Acts, Some(DOWN), Machine(n, Pair(n, sum + n))) == Machine(n, Pair(n - 1, sum + n));
      AddUpFrom(n - 1, n, sum + n);
    }
  }
}
