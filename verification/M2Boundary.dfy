/**
  Statement boundaries: where in the code of a function each statement inside it starts, and
  what the flow analysis says there.
 */
module M2Boundary {
  import opened Options
  import opened M2Word
  import opened M2Machine
  import opened M2Codegen
  import opened M2Stack
  import Src = M2Source

  /** A statement inside another one: where its code starts, and what it is compiled with. */
  datatype Spot = Spot(off: nat, env: Env, n: nat, brk: Target, ret: bool, s: Src.Stmt) {
    function Code(): Code { StmtCode(env, n, brk, ret, s) }
  }

  /** The i-th statement directly inside one. */
  function Into(x: Spot, i: nat): Option<Spot> {
    match x.s
    case Block(b) =>
      if i >= |b| then None
      else
        var before := SeqCode(x.env, x.n, x.brk, x.ret, b[..i]);
        Some(Spot(x.off + |before|, AfterSeq(x.env, b[..i]), x.n + CountSeq(b[..i]), x.brk, EndsInRet(x.ret, before), b[i]))
    case If(c, t, e) =>
      var yes := Spot(x.off + |IfHead(x.env, x.n, c)|, x.env, x.n + 1, x.brk, false, t);
      if i == 0 then Some(yes)
      else if e.None? then None
      else Some(Spot(yes.off + |yes.Code()| + |IfMiddle(x.env, x.n)|, x.env, x.n + 1 + Count(t), x.brk, false, e.value))
    case While(c, b) => Some(Spot(x.off + |WhileHead(x.env, x.n, c)|, x.env, x.n + 1, WhileTarget(x.env, x.n), false, b))
    case DoWhile(b, _) => Some(Spot(x.off + |DoHead(x.env, x.n)|, x.env, x.n + 1, DoTarget(x.env, x.n), false, b))
    case For(start, c, j, b) =>
      Some(Spot(x.off + |OptCode(x.env, start)| + |ForHead(x.env, x.n, c, j)|, x.env, x.n + 1, ForTarget(x.env, x.n), false, b))
    case _ => None
  }

  /** The statement that a path leads to. */
  function Walk(x: Spot, path: seq<nat>): Option<Spot>
    decreases |path|
  {
    if path == [] then Some(x)
    else
      var y := Into(x, path[0]);
      if y.None? then None else Walk(y.value, path[1..])
  }

  /** What the analysis needs at the start of a statement. */
  predicate SpotOk(x: Spot, plan: Plan, h: Point) {
    && Src.Braced(x.s) && Placed(plan.lab, x.n, Heights(x.env, x.s)) && TargetAt(plan, x.brk, x.env)
    && Fits(plan, x.env) && (plan.strict ==> TameStmt(plan.p, x.env, x.s))
    && Arrives(h, x.env, plan)
  }

  /** y's code is in x's code, and the flow up to it is well formed and arrives. */
  predicate Reached(x: Spot, y: Spot, plan: Plan, h: Point, g: Point) {
    && x.off <= y.off && Occurs(x.Code(), y.off - x.off, y.Code())
    && FlowCode(x.Code()[..y.off - x.off], h, plan) == Ok(g) && SpotOk(y, plan, g)
  }

  lemma Between(x: Spot, y: Spot, pre: Code, post: Code, plan: Plan, h: Point, g: Point)
    requires x.Code() == pre + y.Code() + post && y.off == x.off + |pre|
    requires FlowCode(pre, h, plan) == Ok(g) && SpotOk(y, plan, g)
    ensures Reached(x, y, plan, h, g)
  {
    hide FlowCode, SpotOk, StmtCode;
    var inner := y.Code();
    assert (pre + inner + post)[..|pre|] == pre;
    assert (pre + inner + post)[|pre|..|pre| + |inner|] == inner;
  }

  lemma WhileInto(x: Spot, y: Spot, plan: Plan, h: Point) returns (g: Point)
    requires x.s.While? && SpotOk(x, plan, h) && Into(x, 0) == Some(y)
    ensures Reached(x, y, plan, h, g)
  {
    hide FlowCode, WhileHead, Tame;
    PlacedFirst(plan.lab, x.n, |x.env.locals|, Heights(x.env, x.s.loop));
    g := WhileHeadFlow(x.env, x.n, x.s.cond, plan, h);
    Between(x, y, WhileHead(x.env, x.n, x.s.cond), WhileTail(x.env, x.n), plan, h, g);
  }

  lemma DoInto(x: Spot, y: Spot, plan: Plan, h: Point) returns (g: Point)
    requires x.s.DoWhile? && SpotOk(x, plan, h) && Into(x, 0) == Some(y)
    ensures Reached(x, y, plan, h, g)
  {
    hide FlowCode, DoTail, Tame;
    PlacedFirst(plan.lab, x.n, |x.env.locals|, Heights(x.env, x.s.loop));
    g := JumpMark(Lbl(x.env, DoL, x.n), Lbl(x.env, DoL, x.n), x.env, x.n, h, plan);
    Between(x, y, DoHead(x.env, x.n), DoTail(x.env, x.n, x.s.cond), plan, h, g);
  }

  lemma ForInto(x: Spot, y: Spot, plan: Plan, h: Point) returns (g: Point)
    requires x.s.For? && SpotOk(x, plan, h) && Into(x, 0) == Some(y)
    ensures Reached(x, y, plan, h, g)
  {
    hide FlowCode, ForHead, OptCode, Tame, TameOpt;
    var start, head := OptCode(x.env, x.s.start), ForHead(x.env, x.n, x.s.cond, x.s.iter);
    PlacedFirst(plan.lab, x.n, |x.env.locals|, Heights(x.env, x.s.loop));
    var m := OptPoint(x.env, x.s.start, h, plan);
    g := ForHeadFlow(x.env, x.n, x.s.cond, x.s.iter, plan, m);
    FlowConcat(start, head, h, plan);
    Between(x, y, start + head, ForTail(x.env, x.n), plan, h, g);
  }

  lemma IfInto(x: Spot, i: nat, y: Spot, plan: Plan, h: Point) returns (g: Point)
    requires x.s.If? && SpotOk(x, plan, h) && Into(x, i) == Some(y)
    ensures Reached(x, y, plan, h, g)
  {
    hide FlowCode, ExprCode, StmtCode, Count, Tame;
    var env, n, s := x.env, x.n, x.s;
    var then_, m := StmtCode(env, n + 1, x.brk, false, s.thn), n + 1 + Count(s.thn);
    var else_ := if s.els.Some? then StmtCode(env, m, x.brk, false, s.els.value) else [];
    var hs := if s.els.Some? then Heights(env, s.els.value) else [];
    PlacedSplit(plan.lab, n, [|env.locals|] + Heights(env, s.thn), hs);
    PlacedFirst(plan.lab, n, |env.locals|, Heights(env, s.thn));
    var head, mid, end := IfHead(env, n, s.cond), IfMiddle(env, n), IfEnd(env, n);
    var ha := TestFlow(env, s.cond, Je(Lbl(env, ElseL, n)), n, h, plan);
    assert x.Code() == head + then_ + mid + else_ + end by { IfShape(x); }
    if i == 0 {
      g := ha;
      assert head + then_ + mid + else_ + end == head + then_ + (mid + else_ + end);
      Between(x, y, head, mid + else_ + end, plan, h, g);
    } else {
      StmtFlow(env, n + 1, x.brk, false, s.thn, plan, ha);
      var hb := FlowCode(then_, ha, plan).h;
      g := JumpMark(Lbl(env, EndIfL, n), Lbl(env, ElseL, n), env, n, hb, plan);
      FlowConcat(head, then_, h, plan);
      FlowConcat(head + then_, mid, h, plan);
      Between(x, y, head + then_ + mid, end, plan, h, g);
    }
  }

  lemma IfShape(x: Spot)
    requires x.s.If?
    ensures x.Code() == IfHead(x.env, x.n, x.s.cond) + StmtCode(x.env, x.n + 1, x.brk, false, x.s.thn) + IfMiddle(x.env, x.n)
      + (if x.s.els.Some? then StmtCode(x.env, x.n + 1 + Count(x.s.thn), x.brk, false, x.s.els.value) else [])
      + IfEnd(x.env, x.n)
  {
  }

  lemma SeqUnfold(env: Env, n: nat, brk: Target, ret: bool, ss: seq<Src.Stmt>)
    ensures ss == [] ==> SeqCode(env, n, brk, ret, ss) == [] && AfterSeq(env, ss) == env && CountSeq(ss) == 0
    ensures ss != [] ==>
      var c := StmtCode(env, n, brk, ret, ss[0]);
      && SeqCode(env, n, brk, ret, ss) == c + SeqCode(After(env, ss[0]), n + Count(ss[0]), brk, EndsInRet(ret, c), ss[1..])
      && AfterSeq(env, ss) == AfterSeq(After(env, ss[0]), ss[1..]) && CountSeq(ss) == Count(ss[0]) + CountSeq(ss[1..])
  {
    hide StmtCode, Count, After, EndsInRet;
  }

  /** A list of statements up to its i-th one, that one, and the rest. */
  lemma {:induction false} SeqSplit(env: Env, n: nat, brk: Target, ret: bool, ss: seq<Src.Stmt>, i: nat) returns (post: Code)
    requires i < |ss|
    ensures var before := SeqCode(env, n, brk, ret, ss[..i]);
      SeqCode(env, n, brk, ret, ss)
        == before + StmtCode(AfterSeq(env, ss[..i]), n + CountSeq(ss[..i]), brk, EndsInRet(ret, before), ss[i]) + post
    decreases i
  {
    hide StmtCode, Count, SeqCode, AfterSeq, CountSeq;
    var c := StmtCode(env, n, brk, ret, ss[0]);
    SeqUnfold(env, n, brk, ret, ss);
    SeqUnfold(env, n, brk, ret, ss[..i]);
    if i == 0 {
      post := SeqCode(After(env, ss[0]), n + Count(ss[0]), brk, EndsInRet(ret, c), ss[1..]);
      assert [] + c + post == c + post;
    } else {
      var env1, m, r := After(env, ss[0]), n + Count(ss[0]), EndsInRet(ret, c);
      post := SeqSplit(env1, m, brk, r, ss[1..], i - 1);
      assert ss[1..][..i - 1] == ss[..i][1..];
      var rest := SeqCode(env1, m, brk, r, ss[..i][1..]);
      var own := StmtCode(AfterSeq(env, ss[..i]), n + CountSeq(ss[..i]), brk, EndsInRet(r, rest), ss[i]);
      Regroup(c, rest, own, post, ret);
    }
  }

  lemma Regroup(c: Code, rest: Code, own: Code, post: Code, ret: bool)
    ensures c + (rest + own + post) == c + rest + own + post
    ensures EndsInRet(ret, c + rest) == EndsInRet(EndsInRet(ret, c), rest)
  {
  }

  lemma {:induction false} HeightsSplit(env: Env, ss: seq<Src.Stmt>, i: nat, lab: seq<nat>, n: nat, p: Src.Program, strict: bool)
    requires i < |ss| && Placed(lab, n, HeightsSeq(env, ss)) && (strict ==> TameSeq(p, env, ss))
    ensures Placed(lab, n, HeightsSeq(env, ss[..i]))
    ensures Placed(lab, n + CountSeq(ss[..i]), Heights(AfterSeq(env, ss[..i]), ss[i]))
    ensures strict ==> TameSeq(p, env, ss[..i]) && TameStmt(p, AfterSeq(env, ss[..i]), ss[i])
    decreases i
  {
    hide Heights, Count, TameStmt;
    var env1 := After(env, ss[0]);
    PlacedSplit(lab, n, Heights(env, ss[0]), HeightsSeq(env1, ss[1..]));
    if i == 0 {
      assert ss[..0] == [];
    } else {
      HeightsSplit(env1, ss[1..], i - 1, lab, n + Count(ss[0]), p, strict);
      assert ss[1..][..i - 1] == ss[..i][1..];
      PlacedJoin(lab, n, Heights(env, ss[0]), HeightsSeq(env1, ss[..i][1..]));
    }
  }

  lemma PlacedJoin(lab: seq<nat>, n: nat, a: seq<nat>, b: seq<nat>)
    requires Placed(lab, n, a) && Placed(lab, n + |a|, b)
    ensures Placed(lab, n, a + b)
  {
    assert lab[n..n + |a + b|] == lab[n..n + |a|] + lab[n + |a|..n + |a| + |b|];
  }

  lemma BlockInto(x: Spot, i: nat, y: Spot, plan: Plan, h: Point) returns (g: Point)
    requires x.s.Block? && SpotOk(x, plan, h) && Into(x, i) == Some(y)
    ensures Reached(x, y, plan, h, g)
  {
    hide FlowCode, SeqCode, AfterSeq, CountSeq, HeightsSeq, Heights, TameSeq, TameStmt, StmtCode, EndsInRet;
    var b, before := x.s.body, SeqCode(x.env, x.n, x.brk, x.ret, x.s.body[..i]);
    var whole := SeqCode(x.env, x.n, x.brk, x.ret, b);
    assert Placed(plan.lab, x.n, HeightsSeq(x.env, b)) && (plan.strict ==> TameSeq(plan.p, x.env, b)) by { BlockParts(x, plan, h); }
    var post := SeqSplit(x.env, x.n, x.brk, x.ret, b, i);
    HeightsSplit(x.env, b, i, plan.lab, x.n, plan.p, plan.strict);
    SeqFlow(x.env, x.n, x.brk, x.ret, b[..i], plan, h);
    g := FlowCode(before, h, plan).h;
    var tail := BlockShape(x);
    assert x.Code() == before + y.Code() + (post + tail);
    Between(x, y, before, post + tail, plan, h, g);
  }

  lemma BlockParts(x: Spot, plan: Plan, h: Point)
    requires x.s.Block? && SpotOk(x, plan, h)
    ensures Placed(plan.lab, x.n, HeightsSeq(x.env, x.s.body)) && (plan.strict ==> TameSeq(plan.p, x.env, x.s.body))
  {
  }

  lemma BlockShape(x: Spot) returns (tail: Code)
    requires x.s.Block?
    ensures x.Code() == SeqCode(x.env, x.n, x.brk, x.ret, x.s.body) + tail
  {
    hide SeqCode, Pops;
    var c := SeqCode(x.env, x.n, x.brk, x.ret, x.s.body);
    assert x.Code() == BlockCode(x.env, x.n, x.brk, x.ret, x.s.body);
    tail := if EndsInRet(x.ret, c) then [] else Pops(|AfterSeq(x.env, x.s.body).locals| - |x.env.locals|);
    assert c + [] == c;
  }

  lemma IntoFlow(x: Spot, i: nat, y: Spot, plan: Plan, h: Point) returns (g: Point)
    requires SpotOk(x, plan, h) && Into(x, i) == Some(y)
    ensures Reached(x, y, plan, h, g)
  {
    hide SpotOk, Reached;
    match x.s
    case Block(_) => g := BlockInto(x, i, y, plan, h);
    case If(_, _, _) => g := IfInto(x, i, y, plan, h);
    case While(_, _) => g := WhileInto(x, y, plan, h);
    case DoWhile(_, _) => g := DoInto(x, y, plan, h);
    case For(_, _, _, _) => g := ForInto(x, y, plan, h);
  }

  /** At every statement inside one, however deep, the flow is well formed and arrives. */
  lemma {:induction false} WalkFlow(x: Spot, path: seq<nat>, y: Spot, plan: Plan, h: Point) returns (g: Point)
    requires SpotOk(x, plan, h) && Walk(x, path) == Some(y)
    ensures Reached(x, y, plan, h, g)
    decreases |path|
  {
    hide SpotOk, Into, FlowCode, StmtCode;
    if path == [] {
      g := h;
      FlowNone(h, plan);
      assert x.Code()[..0] == [] && x.Code()[0..|x.Code()|] == x.Code();
    } else {
      var z := Into(x, path[0]).value;
      var m := IntoFlow(x, path[0], z, plan, h);
      g := WalkFlow(z, path[1..], y, plan, m);
      var o, k := z.off - x.off, y.off - z.off;
      assert x.Code()[..o + k] == x.Code()[..o] + z.Code()[..k] by { Nested(x.Code(), o, z.Code(), k); }
      FlowConcat(x.Code()[..o], z.Code()[..k], h, plan);
      OccursNested(x.Code(), o, z.Code(), k, y.Code());
    }
  }

  lemma Nested(a: Code, o: nat, b: Code, k: nat)
    requires Occurs(a, o, b) && k <= |b|
    ensures a[..o + k] == a[..o] + b[..k]
  {
    assert a[o..o + |b|] == b;
    forall i | o <= i < o + k ensures a[i] == b[i - o] {
      assert a[o..o + |b|][i - o] == a[i];
    }
  }

  lemma OccursNested(a: Code, o: nat, b: Code, k: nat, c: Code)
    requires Occurs(a, o, b) && Occurs(b, k, c)
    ensures Occurs(a, o + k, c)
  {
    forall i | 0 <= i < |c| ensures a[o + k + i] == c[i] {
      OccursAt(a, o, b, k + i);
      OccursAt(b, k, c, i);
    }
  }

  /** The statements of a function. */
  function Whole(d: Src.Fun): Spot { Spot(1, EnvOf(d), 0, NoTarget, false, d.body) }
}
