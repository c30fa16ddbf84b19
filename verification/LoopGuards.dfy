/** The two meanings of a while loop written with literal blocks. The whileTrue: and whileFalse:
    primitives take a guard that is no Boolean for an answer like any other; the loop compiled in line
    stops at it. When does the difference show? */
module LoopGuards {
  import opened Syntax
  import opened Resolve
  import opened Reference

  /** The run stopped at a guard that was no Boolean. */
  predicate Balks(r: Result) { r.Stop? && r.why.LoopNotBoolean? }

  /** The two meanings of the same code agree exactly when the stricter one does not stop at a guard,
      which then is no Boolean; the primitives never do. */
  predicate Exactly(strict: Result, loose: Result) {
    (strict == loose <==> !Balks(strict)) && !Balks(loose) && (Balks(strict) ==> !strict.why.guard.BoolV?)
  }

  predicate SameUnlessBalks(strict: Result, loose: Result) {
    if Balks(strict) then !strict.why.guard.BoolV? else strict == loose
  }

  lemma {:induction false} EvalNeverBalks(n: Node, env: Env, st: State, fuel: nat)
    ensures !Balks(Eval(n, env, st, false, fuel))
    decreases fuel, 2, n
  {
    hide Apply, Compute;
    match n
    case Assignment(_, v) => EvalNeverBalks(v, env, st, fuel);
    case Binary(_, l, r) =>
      EvalNeverBalks(l, env, st, fuel);
      var a := Eval(l, env, st, false, fuel);
      if a.Val? { EvalNeverBalks(r, env, a.st, fuel); }
    case Send(sel, r, a) =>
      EvalNeverBalks(r, env, st, fuel);
      var recv := Eval(r, env, st, false, fuel);
      if recv.Val? {
        ArgsNeverBalks(a, env, recv.st, fuel);
        var args := EvalArgs(a, env, recv.st, false, fuel);
        if args.Vals? { ApplyNeverBalks(sel, recv.v, args.vs, args.st, InlineShapeOf(n) == InlineWhile, fuel); }
      }
    case Return(v) => EvalNeverBalks(v, env, st, fuel);
    case _ =>
  }

  lemma {:induction false} ArgsNeverBalks(ns: Nodes, env: Env, st: State, fuel: nat)
    ensures !Balks(EvalArgs(ns, env, st, false, fuel))
    decreases fuel, 2, ns
  {
    hide Eval;
    match ns
    case NoNodes =>
    case More(h, t) =>
      EvalNeverBalks(h, env, st, fuel);
      var a := Eval(h, env, st, false, fuel);
      if a.Val? { ArgsNeverBalks(t, env, a.st, fuel); }
  }

  lemma {:induction false} BodyNeverBalks(ns: Nodes, env: Env, st: State, fuel: nat)
    ensures !Balks(EvalBody(ns, env, st, false, fuel))
    decreases fuel, 2, ns
  {
    hide Eval;
    match ns
    case NoNodes =>
    case More(h, t) =>
      EvalNeverBalks(h, env, st, fuel);
      var a := Eval(h, env, st, false, fuel);
      if a.Val? { BodyNeverBalks(t, env, a.st, fuel); }
  }

  lemma {:induction false} CallNeverBalks(f: Value, args: seq<Value>, st: State, fuel: nat)
    ensures !Balks(Call(f, args, st, false, fuel))
    decreases fuel, 0
  {
    hide EvalBody;
    if f.BlockV? && f.block.Block? && |args| == |f.block.params| && fuel > 0 {
      BodyNeverBalks(f.block.body, Activate(f.env, Declared(f.block), st), st.(cells := st.cells + args + Nils(|f.block.temps|)), fuel - 1);
    }
  }

  lemma {:induction false} ApplyNeverBalks(sel: Selector, recv: Value, args: seq<Value>, st: State, literalLoop: bool, fuel: nat)
    ensures !Balks(Apply(sel, recv, args, st, false, literalLoop, fuel))
    decreases fuel, 1
  {
    hide Call, While, Count;
    if recv.BlockV? { CallNeverBalks(recv, args, st, fuel); }
    if |args| >= 1 {
      CallNeverBalks(args[0], [], st, fuel);
      WhileNeverBalks(sel, recv, args[0], st, fuel);
    }
    if |args| >= 2 {
      CallNeverBalks(args[1], [], st, fuel);
      if recv.IntV? && args[0].IntV? { CountNeverBalks(recv.n, recv.n, args[0].n, args[1], st, fuel); }
    }
  }

  lemma {:induction false} WhileNeverBalks(sel: Selector, cond: Value, body: Value, st: State, fuel: nat)
    ensures !Balks(While(sel, cond, body, st, false, false, fuel))
    decreases fuel, 0
  {
    hide Call;
    if fuel > 0 {
      CallNeverBalks(cond, [], st, fuel - 1);
      var c := Call(cond, [], st, false, fuel - 1);
      if c.Val? {
        CallNeverBalks(body, [], c.st, fuel - 1);
        var b := Call(body, [], c.st, false, fuel - 1);
        if b.Val? { WhileNeverBalks(sel, cond, body, b.st, fuel - 1); }
      }
    }
  }

  lemma {:induction false} CountNeverBalks(start: int, i: int, stop: int, body: Value, st: State, fuel: nat)
    ensures !Balks(Count(start, i, stop, body, st, false, fuel))
    decreases fuel, 0
  {
    hide Call;
    if i <= stop && fuel > 0 {
      CallNeverBalks(body, [IntV(i)], st, fuel - 1);
      var b := Call(body, [IntV(i)], st, false, fuel - 1);
      if b.Val? { CountNeverBalks(start, i + 1, stop, body, b.st, fuel - 1); }
    }
  }

  lemma {:induction false} EvalExactly(n: Node, env: Env, st: State, fuel: nat)
    ensures SameUnlessBalks(Eval(n, env, st, true, fuel), Eval(n, env, st, false, fuel))
    decreases fuel, 2, n
  {
    hide Apply, Compute;
    match n
    case Assignment(_, v) => EvalExactly(v, env, st, fuel);
    case Binary(_, l, r) =>
      EvalExactly(l, env, st, fuel);
      var a := Eval(l, env, st, true, fuel);
      if a.Val? { EvalExactly(r, env, a.st, fuel); }
    case Send(sel, r, a) =>
      EvalExactly(r, env, st, fuel);
      var recv := Eval(r, env, st, true, fuel);
      if recv.Val? {
        ArgsExactly(a, env, recv.st, fuel);
        var args := EvalArgs(a, env, recv.st, true, fuel);
        if args.Vals? { ApplyExactly(sel, recv.v, args.vs, args.st, InlineShapeOf(n) == InlineWhile, fuel); }
      }
    case Return(v) => EvalExactly(v, env, st, fuel);
    case _ =>
  }

  lemma {:induction false} ArgsExactly(ns: Nodes, env: Env, st: State, fuel: nat)
    ensures SameUnlessBalks(EvalArgs(ns, env, st, true, fuel), EvalArgs(ns, env, st, false, fuel))
    decreases fuel, 2, ns
  {
    hide Eval;
    match ns
    case NoNodes =>
    case More(h, t) =>
      EvalExactly(h, env, st, fuel);
      var a := Eval(h, env, st, true, fuel);
      if a.Val? { ArgsExactly(t, env, a.st, fuel); }
  }

  lemma {:induction false} BodyExactly(ns: Nodes, env: Env, st: State, fuel: nat)
    ensures SameUnlessBalks(EvalBody(ns, env, st, true, fuel), EvalBody(ns, env, st, false, fuel))
    decreases fuel, 2, ns
  {
    hide Eval;
    match ns
    case NoNodes =>
    case More(h, t) =>
      EvalExactly(h, env, st, fuel);
      var a := Eval(h, env, st, true, fuel);
      if a.Val? { BodyExactly(t, env, a.st, fuel); }
  }

  lemma {:induction false} CallExactly(f: Value, args: seq<Value>, st: State, fuel: nat)
    ensures SameUnlessBalks(Call(f, args, st, true, fuel), Call(f, args, st, false, fuel))
    decreases fuel, 0
  {
    hide EvalBody;
    if f.BlockV? && f.block.Block? && |args| == |f.block.params| && fuel > 0 {
      BodyExactly(f.block.body, Activate(f.env, Declared(f.block), st), st.(cells := st.cells + args + Nils(|f.block.temps|)), fuel - 1);
    }
  }

  lemma {:induction false} ApplyExactly(sel: Selector, recv: Value, args: seq<Value>, st: State, literalLoop: bool, fuel: nat)
    ensures SameUnlessBalks(Apply(sel, recv, args, st, true, literalLoop, fuel), Apply(sel, recv, args, st, false, literalLoop, fuel))
    decreases fuel, 1
  {
    hide Call, While, Count;
    if recv.BlockV? { CallExactly(recv, args, st, fuel); }
    if |args| >= 1 {
      CallExactly(args[0], [], st, fuel);
      WhileExactly(sel, recv, args[0], st, literalLoop, fuel);
    }
    if |args| >= 2 {
      CallExactly(args[1], [], st, fuel);
      if recv.IntV? && args[0].IntV? { CountExactly(recv.n, recv.n, args[0].n, args[1], st, fuel); }
    }
  }

  lemma {:induction false} WhileExactly(sel: Selector, cond: Value, body: Value, st: State, strict: bool, fuel: nat)
    ensures SameUnlessBalks(While(sel, cond, body, st, true, strict, fuel), While(sel, cond, body, st, false, false, fuel))
    decreases fuel, 0
  {
    hide Call;
    if fuel > 0 {
      CallExactly(cond, [], st, fuel - 1);
      var c := Call(cond, [], st, true, fuel - 1);
      if c.Val? {
        CallExactly(body, [], c.st, fuel - 1);
        var b := Call(body, [], c.st, true, fuel - 1);
        if b.Val? { WhileExactly(sel, cond, body, b.st, strict, fuel - 1); }
      }
    }
  }

  lemma {:induction false} CountExactly(start: int, i: int, stop: int, body: Value, st: State, fuel: nat)
    ensures SameUnlessBalks(Count(start, i, stop, body, st, true, fuel), Count(start, i, stop, body, st, false, fuel))
    decreases fuel, 0
  {
    hide Call;
    if i <= stop && fuel > 0 {
      CallExactly(body, [IntV(i)], st, fuel - 1);
      var b := Call(body, [IntV(i)], st, true, fuel - 1);
      if b.Val? { CountExactly(start, i + 1, stop, body, b.st, fuel - 1); }
    }
  }

  /** Compiled in line or sent, a method's while loops do the same exactly when no guard of a literal
      loop answers a non-Boolean. */
  lemma LoopsAgreeExactly(m: Method, args: seq<Value>, self: map<string, Value>, fuel: nat)
    ensures Exactly(Run(m, args, self, true, fuel), Run(m, args, self, false, fuel))
  {
    hide EvalBody;
    var names := m.params + m.temps;
    BodyExactly(m.body, Activate(map[], names, State([], self)), State(args + Nils(|m.temps|), self), fuel);
    BodyNeverBalks(m.body, Activate(map[], names, State([], self)), State(args + Nils(|m.temps|), self), fuel);
  }

  // ----- A condition on the text -----

  /** Statements whose last one is a comparison or a Boolean literal. */
  predicate AnswersBoolean(ns: Nodes) {
    ns.More? && if ns.tail.More? then AnswersBoolean(ns.tail)
                else ns.head.BoolLit? || (ns.head.Binary? && ns.head.op != Add && ns.head.op != Sub)
  }

  /** Every guard of a literal loop does so. */
  predicate Guarded(n: Node) {
    match n
    case Assignment(_, v) => Guarded(v)
    case Binary(_, l, r) => Guarded(l) && Guarded(r)
    case Send(_, r, a) => Guarded(r) && AllGuarded(a) && (InlineShapeOf(n) == InlineWhile ==> AnswersBoolean(r.body))
    case Block(_, _, body) => AllGuarded(body)
    case Return(v) => Guarded(v)
    case _ => true
  }

  predicate AllGuarded(ns: Nodes) { ns.More? ==> Guarded(ns.head) && AllGuarded(ns.tail) }

  predicate ValueOk(v: Value) { v.BlockV? ==> Guarded(v.block) }

  predicate StateOk(st: State) {
    (forall c | 0 <= c < |st.cells| :: ValueOk(st.cells[c])) && forall x | x in st.self :: ValueOk(st.self[x])
  }

  /** No block of the run has an unguarded loop, and no guard balked. */
  predicate ResultOk(r: Result) {
    match r
    case Val(v, st) => ValueOk(v) && StateOk(st)
    case Vals(vs, st) => (forall i | 0 <= i < |vs| :: ValueOk(vs[i])) && StateOk(st)
    case Stop(_, _) => !Balks(r)
    case Timeout => true
  }

  lemma {:induction false} GuardedEval(n: Node, env: Env, st: State, fuel: nat)
    requires Guarded(n) && StateOk(st)
    ensures ResultOk(Eval(n, env, st, true, fuel))
    decreases fuel, 2, n
  {
    hide Apply;
    match n
    case Assignment(_, v) => GuardedEval(v, env, st, fuel);
    case Binary(_, l, r) =>
      GuardedEval(l, env, st, fuel);
      var a := Eval(l, env, st, true, fuel);
      if a.Val? { GuardedEval(r, env, a.st, fuel); }
    case Send(sel, r, a) =>
      GuardedEval(r, env, st, fuel);
      var recv := Eval(r, env, st, true, fuel);
      if recv.Val? {
        GuardedArgs(a, env, recv.st, fuel);
        var args := EvalArgs(a, env, recv.st, true, fuel);
        if args.Vals? {
          var literal := InlineShapeOf(n) == InlineWhile;
          if literal { assert recv.v == BlockV(r, env); }
          GuardedApply(sel, recv.v, args.vs, args.st, literal, fuel);
        }
      }
    case Return(v) => GuardedEval(v, env, st, fuel);
    case _ =>
  }

  lemma {:induction false} GuardedArgs(ns: Nodes, env: Env, st: State, fuel: nat)
    requires AllGuarded(ns) && StateOk(st)
    ensures ResultOk(EvalArgs(ns, env, st, true, fuel))
    decreases fuel, 2, ns
  {
    hide Eval, Guarded;
    match ns
    case NoNodes =>
    case More(h, t) =>
      GuardedEval(h, env, st, fuel);
      var a := Eval(h, env, st, true, fuel);
      if a.Val? { GuardedArgs(t, env, a.st, fuel); }
  }

  lemma {:induction false} GuardedBody(ns: Nodes, env: Env, st: State, fuel: nat)
    requires AllGuarded(ns) && StateOk(st)
    ensures ResultOk(EvalBody(ns, env, st, true, fuel))
    ensures AnswersBoolean(ns) && EvalBody(ns, env, st, true, fuel).Val? ==> EvalBody(ns, env, st, true, fuel).v.BoolV?
    decreases fuel, 2, ns
  {
    hide Guarded, StateOk;
    match ns
    case NoNodes => assert ValueOk(NilV);
    case More(h, t) =>
      GuardedEval(h, env, st, fuel);
      var a := Eval(h, env, st, true, fuel);
      if a.Val? && t.More? { GuardedBody(t, env, a.st, fuel); }
  }

  lemma {:induction false} GuardedCall(f: Value, args: seq<Value>, st: State, fuel: nat)
    requires ValueOk(f) && (forall i | 0 <= i < |args| :: ValueOk(args[i])) && StateOk(st)
    ensures var r := Call(f, args, st, true, fuel);
      ResultOk(r) && (f.BlockV? && f.block.Block? && AnswersBoolean(f.block.body) && r.Val? ==> r.v.BoolV?)
    decreases fuel, 0
  {
    hide EvalBody, AnswersBoolean;
    if f.BlockV? && f.block.Block? && |args| == |f.block.params| && fuel > 0 {
      var st' := st.(cells := st.cells + args + Nils(|f.block.temps|));
      assert StateOk(st');
      GuardedBody(f.block.body, Activate(f.env, Declared(f.block), st), st', fuel - 1);
    }
  }

  lemma {:induction false} GuardedApply(sel: Selector, recv: Value, args: seq<Value>, st: State, literal: bool, fuel: nat)
    requires ValueOk(recv) && (forall i | 0 <= i < |args| :: ValueOk(args[i])) && StateOk(st)
    requires literal ==> recv.BlockV? && recv.block.Block? && AnswersBoolean(recv.block.body)
    ensures ResultOk(Apply(sel, recv, args, st, true, literal, fuel))
    decreases fuel, 1
  {
    hide Call, While, Count, StateOk, AnswersBoolean;
    if recv.BlockV? { GuardedCall(recv, args, st, fuel); }
    if |args| >= 1 {
      GuardedCall(args[0], [], st, fuel);
      GuardedWhile(sel, recv, args[0], st, literal, fuel);
    }
    if |args| >= 2 {
      GuardedCall(args[1], [], st, fuel);
      if recv.IntV? && args[0].IntV? { GuardedCount(recv.n, recv.n, args[0].n, args[1], st, fuel); }
    }
  }

  lemma {:induction false} GuardedWhile(sel: Selector, cond: Value, body: Value, st: State, strict: bool, fuel: nat)
    requires ValueOk(cond) && ValueOk(body) && StateOk(st)
    requires strict ==> cond.BlockV? && cond.block.Block? && AnswersBoolean(cond.block.body)
    ensures ResultOk(While(sel, cond, body, st, true, strict, fuel))
    decreases fuel, 0
  {
    hide Call, StateOk, AnswersBoolean;
    if fuel > 0 {
      GuardedCall(cond, [], st, fuel - 1);
      var c := Call(cond, [], st, true, fuel - 1);
      if c.Val? {
        GuardedCall(body, [], c.st, fuel - 1);
        var b := Call(body, [], c.st, true, fuel - 1);
        if b.Val? { GuardedWhile(sel, cond, body, b.st, strict, fuel - 1); }
      }
    }
  }

  lemma {:induction false} GuardedCount(start: int, i: int, stop: int, body: Value, st: State, fuel: nat)
    requires ValueOk(body) && StateOk(st)
    ensures ResultOk(Count(start, i, stop, body, st, true, fuel))
    decreases fuel, 0
  {
    hide Call, StateOk;
    if i <= stop && fuel > 0 {
      GuardedCall(body, [IntV(i)], st, fuel - 1);
      var b := Call(body, [IntV(i)], st, true, fuel - 1);
      if b.Val? { GuardedCount(start, i + 1, stop, body, b.st, fuel - 1); }
    }
  }

  /** A method whose literal loops all end their guards with a comparison or a Boolean literal never
      balks, so its loops do what the primitives do. */
  lemma GuardedMethodAgrees(m: Method, args: seq<Value>, self: map<string, Value>, fuel: nat)
    requires AllGuarded(m.body) && (forall i | 0 <= i < |args| :: ValueOk(args[i])) && forall x | x in self :: ValueOk(self[x])
    ensures !Balks(Run(m, args, self, true, fuel)) && Run(m, args, self, true, fuel) == Run(m, args, self, false, fuel)
  {
    hide EvalBody;
    var names := m.params + m.temps;
    GuardedBody(m.body, Activate(map[], names, State([], self)), State(args + Nils(|m.temps|), self), fuel);
    LoopsAgreeExactly(m, args, self, fuel);
  }

  // ----- The condition can fail -----

  /** [nil] whileTrue: [] */
  const NIL_LOOP := Send(WhileTrue, Block([], [], More(NilLit, NoNodes)), More(Block([], [], NoNodes), NoNodes))
  const NIL_LOOP_METHOD := Method([], [], More(NIL_LOOP, NoNodes))

  /** The primitive takes nil for an answer that ends the loop, and the method answers self; the loop
      compiled in line stops. */
  lemma NilGuardDiffers()
    ensures Run(NIL_LOOP_METHOD, [], map[], true, 2) == Stop(LoopNotBoolean(WhileTrue, NilV), State([], map[]))
    ensures Run(NIL_LOOP_METHOD, [], map[], false, 2) == Stop(Returned(SelfV), State([], map[]))
  {
    NilLoopEval(true);
    NilLoopEval(false);
    hide Eval, EvalArgs;
    var none: seq<Value> := [];
    var names: seq<string> := [];
    assert none + Nils(0) == [] && names + names == [] && Activate(map[], [], State([], map[])) == map[];
  }

  lemma NilLoopEval(strict: bool)
    ensures Eval(NIL_LOOP, map[], State([], map[]), strict, 2)
         == if strict then Stop(LoopNotBoolean(WhileTrue, NilV), State([], map[])) else Val(NilV, State([], map[]))
  {
    var env: Env, st := map[], State([], map[]);
    var guard, body := Block([], [], More(NilLit, NoNodes)), Block([], [], NoNodes);
    var none: seq<Value> := [];
    assert none + none + Nils(0) == none;
    assert Activate(env, Declared(guard), st) == env;
    assert Call(BlockV(guard, env), [], st, strict, 1) == Val(NilV, st);
    assert While(WhileTrue, BlockV(guard, env), BlockV(body, env), st, strict, strict, 2)
        == if strict then Stop(LoopNotBoolean(WhileTrue, NilV), st) else Val(NilV, st);
    hide While, Call;
    assert Eval(guard, env, st, strict, 2) == Val(BlockV(guard, env), st);
    assert Eval(body, env, st, strict, 2) == Val(BlockV(body, env), st);
    assert EvalArgs(NoNodes, env, st, strict, 2) == Vals([], st);
    assert EvalArgs(More(body, NoNodes), env, st, strict, 2) == Vals([BlockV(body, env)] + [], st);
    assert [BlockV(body, env)] + [] == [BlockV(body, env)];
  }
}
