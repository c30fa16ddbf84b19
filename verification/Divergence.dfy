/** The other direction of the simulation: code that never ends, however much fuel it is given,
    keeps the engine running for any number of steps. */
module Divergence {
  import opened Syntax
  import opened Resolve
  import opened Reference
  import opened Frames
  import opened Fuel
  import opened Bytecode
  import opened Layout
  import opened Codegen
  import opened Engine
  import opened Lowering
  import opened EngineProof

  predicate Lasts(s: Machine, n: nat) { Steps(s, n).Running? }

  ghost predicate Advances(a: Machine, b: Machine) { exists n: nat :: n > 0 && Steps(a, n) == b }

  lemma {:induction false} LastsEarlier(s: Machine, m: nat, n: nat)
    requires m <= n && Lasts(s, n)
    ensures Lasts(s, m)
    decreases n - m
  {
    if m < n {
      LastsEarlier(s, m + 1, n);
      StepsAdd(s, m, 1);
      assert Steps(Steps(s, m), 1) == Step(Steps(s, m));
    }
  }

  lemma LastsFrom(a: Machine, b: Machine, n: nat)
    requires Reaches(a, b) && Lasts(b, n)
    ensures Lasts(a, n)
  {
    var k: nat :| Steps(a, k) == b;
    StepsAdd(a, k, n);
    LastsEarlier(a, n, k + n);
  }

  lemma LastsLonger(a: Machine, b: Machine, n: nat)
    requires n > 0 && Advances(a, b) && Lasts(b, n - 1)
    ensures Lasts(a, n)
  {
    var k: nat :| k > 0 && Steps(a, k) == b;
    StepsAdd(a, k, n - 1);
    LastsEarlier(a, n, k + n - 1);
  }

  lemma AdvancesBy(a: Machine, b: Machine, c: Machine)
    requires Reaches(a, b) && Step(b) == c
    ensures Advances(a, c)
  {
    var k: nat :| Steps(a, k) == b;
    StepsAdd(a, k, 1);
    assert Steps(b, 1) == Step(b);
    assert Steps(a, k + 1) == c;
  }

  ghost predicate NeverExec(e: RExpr, d: Link, slots: RSlots, h: RHeap) { forall f: nat :: Exec(e, d, slots, h, f).FTimeout? }
  ghost predicate NeverArgs(es: RExprs, d: Link, slots: RSlots, h: RHeap) { forall f: nat :: ExecArgs(es, d, slots, h, f).FTimeout? }
  ghost predicate NeverBody(es: RExprs, d: Link, slots: RSlots, h: RHeap) { forall f: nat :: ExecBody(es, d, slots, h, f).FTimeout? }
  ghost predicate NeverInline(es: RExprs, d: Link, slots: RSlots, h: RHeap) { forall f: nat :: ExecInline(es, d, slots, h, f).FTimeout? }
  ghost predicate NeverCounts(e: RExpr, start: RValue, d: Link, slots: RSlots, h: RHeap)
    requires e.CountLoop?
  {
    forall f: nat :: ExecCount(e, start, d, slots, h, f).FTimeout?
  }
  ghost predicate NeverCall(fn: RValue, args: seq<RValue>, h: RHeap) { forall f: nat :: FCall(fn, args, h, f).FTimeout? }
  ghost predicate NeverApply(sel: Selector, recv: RValue, args: seq<RValue>, h: RHeap) {
    forall f: nat :: FApply(sel, recv, args, h, f).FTimeout?
  }
  ghost predicate NeverWhile(sel: Selector, cond: RValue, body: RValue, h: RHeap) {
    forall f: nat :: FWhile(sel, cond, body, h, f).FTimeout?
  }
  ghost predicate NeverCount(start: int, i: int, stop: int, body: RValue, h: RHeap) {
    forall f: nat :: FCount(start, i, stop, body, h, f).FTimeout?
  }

  function Max(a: nat, b: nat): nat { if a < b then b else a }

  // ----- Straight code -----

  lemma {:induction false} LastsExec(e: RExpr, pool: Pool, s: Site, p: nat, slots: RSlots, stack: seq<MValue>, h: RHeap, n: nat)
    requires Shaped(e) && Placed(Code(e, pool), s.m, p) && GoodSlots(slots) && GoodHeap(h)
    requires NeverExec(e, s.dict, slots, h)
    ensures Lasts(Here(s, p, slots, stack, h), n)
    decreases n, 2, e, 2
  {
    hide Placed, GoodSlots, GoodHeap, Here, Code, Lasts, Exec, Stored, StoreCode, Then;
    if IsLeaf(e) {
      LeafEnds(e, s.dict, slots, h);
      assert false;
    } else if IsStore(e) {
      StoreParts(e, pool, s.dict, slots, h, 0);
      StorePlaced(e, Code(e.value, pool), s.m, p);
      forall f: nat ensures Exec(e.value, s.dict, slots, h, f).FTimeout? {
        StoreParts(e, pool, s.dict, slots, h, f);
        assert Exec(e, s.dict, slots, h, f).FTimeout?;
        StoredEnds(e, s.dict, Exec(e.value, s.dict, slots, h, f));
      }
      LastsExec(e.value, pool, s, p, slots, stack, h, n);
    } else {
      match e
      case Arith(_, _, _) => LastsArith(e, pool, s, p, slots, stack, h, n);
      case SendMsg(_, _, _) => LastsSend(e, pool, s, p, slots, stack, h, n);
      case ReturnFromHome(_) => LastsReturn(e, pool, s, p, slots, stack, h, n);
      case Cond(_, _, _, _) => LastsCond(e, pool, s, p, slots, stack, h, n);
      case CondElse(_, _, _, _) => LastsCond(e, pool, s, p, slots, stack, h, n);
      case Loop(_, _, _, _) => LastsLoop(e, pool, s, p, slots, stack, h, n);
      case CountLoop(_, _, _, _, _) => LastsCountLoop(e, pool, s, p, slots, stack, h, n);
    }
  }

  lemma LeafEnds(e: RExpr, d: Link, slots: RSlots, h: RHeap)
    requires IsLeaf(e)
    ensures !NeverExec(e, d, slots, h)
  {
    assert !Exec(e, d, slots, h, 0).FTimeout?;
  }

  lemma StoredEnds(e: RExpr, d: Link, r: FResult)
    requires IsStore(e)
    ensures Stored(e, d, r).FTimeout? ==> r.FTimeout?
  {
  }

  lemma {:induction false} LastsReturn(e: RExpr, pool: Pool, s: Site, p: nat, slots: RSlots, stack: seq<MValue>, h: RHeap, n: nat)
    requires e.ReturnFromHome? && Shaped(e) && Placed(Code(e, pool), s.m, p) && GoodSlots(slots) && GoodHeap(h)
    requires NeverExec(e, s.dict, slots, h)
    ensures Lasts(Here(s, p, slots, stack, h), n)
    decreases n, 2, e, 0
  {
    hide Placed, GoodSlots, GoodHeap, Here, Code, Lasts, Exec;
    var v := Code(e.value, pool);
    ReturnParts(e, pool, s.dict, slots, h, 0);
    PlacedThen(v, One(Op.Return, 0, v.pool), s.m, p);
    forall f: nat ensures Exec(e.value, s.dict, slots, h, f).FTimeout? {
      ReturnParts(e, pool, s.dict, slots, h, f);
      assert Exec(e, s.dict, slots, h, f).FTimeout?;
    }
    LastsExec(e.value, pool, s, p, slots, stack, h, n);
  }

  lemma ArithMeaning(e: RExpr, d: Link, slots: RSlots, h: RHeap, f: nat)
    requires e.Arith?
    ensures var a := Exec(e.left, d, slots, h, f);
      Exec(e, d, slots, h, f) == if !a.FVal? then a else Operated(e.op, a.v, Exec(e.right, d, a.slots, a.heap, f))
  {
  }

  /** When the first of two parts ends and the whole does not, the second never ends. */
  lemma RightNever(e: RExpr, d: Link, slots: RSlots, h: RHeap, f0: nat)
    requires e.Arith? && NeverExec(e, d, slots, h) && !Exec(e.left, d, slots, h, f0).FTimeout?
    ensures var x := Exec(e.left, d, slots, h, f0); x.FVal? && NeverExec(e.right, d, x.slots, x.heap)
  {
    hide Exec;
    var x := Exec(e.left, d, slots, h, f0);
    ArithMeaning(e, d, slots, h, f0);
    assert Exec(e, d, slots, h, f0).FTimeout?;
    forall f: nat ensures Exec(e.right, d, x.slots, x.heap, f).FTimeout? {
      var g := Max(f, f0);
      MoreExec(e.left, d, slots, h, f0, g);
      ArithMeaning(e, d, slots, h, g);
      assert Exec(e, d, slots, h, g).FTimeout?;
      if !Exec(e.right, d, x.slots, x.heap, f).FTimeout? { MoreExec(e.right, d, x.slots, x.heap, f, g); }
    }
  }

  lemma {:induction false} LastsArith(e: RExpr, pool: Pool, s: Site, p: nat, slots: RSlots, stack: seq<MValue>, h: RHeap, n: nat)
    requires e.Arith? && Shaped(e) && Placed(Code(e, pool), s.m, p) && GoodSlots(slots) && GoodHeap(h)
    requires NeverExec(e, s.dict, slots, h)
    ensures Lasts(Here(s, p, slots, stack, h), n)
    decreases n, 2, e, 0
  {
    hide Placed, GoodSlots, GoodHeap, Good, Here, Code, Lasts, Exec, NeverExec, TV, Reaches;
    ArithPlaced(e, pool, s.m, p);
    var a := Code(e.left, pool);
    if NeverExec(e.left, s.dict, slots, h) {
      LastsExec(e.left, pool, s, p, slots, stack, h, n);
    } else {
      var f0 := EndsAt(e.left, s.dict, slots, h);
      RightNever(e, s.dict, slots, h, f0);
      SimExec(e.left, pool, s, p, slots, stack, h, f0);
      var x := Exec(e.left, s.dict, slots, h, f0);
      LastsExec(e.right, a.pool, s, p + |a.words|, x.slots, stack + [TV(x.v)], x.heap, n);
      LastsFrom(Here(s, p, slots, stack, h), Here(s, p + |a.words|, x.slots, stack + [TV(x.v)], x.heap), n);
    }
  }

  lemma ArithPlaced(e: RExpr, pool: Pool, m: Module, p: nat)
    requires e.Arith? && Placed(Code(e, pool), m, p)
    ensures var a := Code(e.left, pool); Placed(a, m, p) && Placed(Code(e.right, a.pool), m, p + |a.words|)
  {
    hide Placed, Sym;
    var a := Code(e.left, pool);
    var b := Code(e.right, a.pool);
    var c := Sym(BinInt(e.op), OperatorConst(e.op), b.pool);
    PlacedThen(a, Then(b, c), m, p);
    PlacedThen(b, c, m, p + |a.words|);
  }

  lemma EndsAt(e: RExpr, d: Link, slots: RSlots, h: RHeap) returns (f: nat)
    requires !NeverExec(e, d, slots, h)
    ensures !Exec(e, d, slots, h, f).FTimeout?
  {
    f :| !Exec(e, d, slots, h, f).FTimeout?;
  }

  lemma NilEnds(d: Link, slots: RSlots, h: RHeap)
    ensures !NeverArgs(RNil, d, slots, h) && !NeverBody(RNil, d, slots, h)
  {
    assert !ExecArgs(RNil, d, slots, h, 0).FTimeout? && !ExecBody(RNil, d, slots, h, 0).FTimeout?;
  }

  lemma TailNever(e: RExpr, t: RExprs, d: Link, slots: RSlots, h: RHeap, f0: nat)
    requires !Exec(e, d, slots, h, f0).FTimeout?
    ensures var x := Exec(e, d, slots, h, f0);
      && (NeverArgs(RCons(e, t), d, slots, h) ==> x.FVal? && NeverArgs(t, d, x.slots, x.heap))
      && (NeverBody(RCons(e, t), d, slots, h) ==> t.RCons? && x.FVal? && NeverBody(t, d, x.slots, x.heap))
  {
    hide Exec;
    var x := Exec(e, d, slots, h, f0);
    if NeverArgs(RCons(e, t), d, slots, h) {
      assert ExecArgs(RCons(e, t), d, slots, h, f0).FTimeout?;
      forall f: nat ensures ExecArgs(t, d, x.slots, x.heap, f).FTimeout? {
        var g := Max(f, f0);
        MoreExec(e, d, slots, h, f0, g);
        assert ExecArgs(RCons(e, t), d, slots, h, g).FTimeout?;
        if !ExecArgs(t, d, x.slots, x.heap, f).FTimeout? { MoreArgs(t, d, x.slots, x.heap, f, g); }
      }
    }
    if NeverBody(RCons(e, t), d, slots, h) {
      assert ExecBody(RCons(e, t), d, slots, h, f0).FTimeout?;
      forall f: nat ensures ExecBody(t, d, x.slots, x.heap, f).FTimeout? {
        var g := Max(f, f0);
        MoreExec(e, d, slots, h, f0, g);
        assert ExecBody(RCons(e, t), d, slots, h, g).FTimeout?;
        if !ExecBody(t, d, x.slots, x.heap, f).FTimeout? { MoreBody(t, d, x.slots, x.heap, f, g); }
      }
    }
  }

  lemma {:induction false} LastsArgs(es: RExprs, pool: Pool, s: Site, p: nat, slots: RSlots, stack: seq<MValue>, h: RHeap, n: nat)
    requires AllShaped(es) && Placed(ArgsCode(es, pool), s.m, p) && GoodSlots(slots) && GoodHeap(h)
    requires NeverArgs(es, s.dict, slots, h)
    ensures Lasts(Here(s, p, slots, stack, h), n)
    decreases n, 2, es, 0
  {
    hide Placed, GoodSlots, GoodHeap, Good, Here, Code, Lasts, Exec, NeverExec, TV, Reaches;
    match es
    case RNil =>
      NilEnds(s.dict, slots, h);
      assert false;
    case RCons(e, t) =>
      var a := Code(e, pool);
      var p1 := p + |a.words|;
      PlacedThen(a, ArgsCode(t, a.pool), s.m, p);
      if NeverExec(e, s.dict, slots, h) {
        LastsExec(e, pool, s, p, slots, stack, h, n);
      } else {
        var f0 := EndsAt(e, s.dict, slots, h);
        TailNever(e, t, s.dict, slots, h, f0);
        SimExec(e, pool, s, p, slots, stack, h, f0);
        var x := Exec(e, s.dict, slots, h, f0);
        LastsArgs(t, a.pool, s, p1, x.slots, stack + [TV(x.v)], x.heap, n);
        LastsFrom(Here(s, p, slots, stack, h), Here(s, p1, x.slots, stack + [TV(x.v)], x.heap), n);
      }
  }

  lemma {:induction false} LastsBody(es: RExprs, pool: Pool, s: Site, p: nat, slots: RSlots, stack: seq<MValue>, h: RHeap, n: nat)
    requires AllShaped(es) && Placed(BodyCode(es, pool), s.m, p) && GoodSlots(slots) && GoodHeap(h)
    requires NeverBody(es, s.dict, slots, h)
    ensures Lasts(Here(s, p, slots, stack, h), n)
    decreases n, 2, es, 0
  {
    hide Placed, GoodSlots, GoodHeap, Good, Here, Code, Lasts, Exec, NeverExec, TV, Reaches;
    match es
    case RNil =>
      NilEnds(s.dict, slots, h);
      assert false;
    case RCons(e, t) =>
      var a := Code(e, pool);
      var p1 := p + |a.words|;
      assert Placed(a, s.m, p) && (t.RCons? ==> Placed(One(Pop, 0, a.pool), s.m, p1) && Placed(BodyCode(t, a.pool), s.m, p1 + 1)) by {
        if t.RCons? {
          PlacedThen(a, Then(One(Pop, 0, a.pool), BodyCode(t, a.pool)), s.m, p);
          PlacedThen(One(Pop, 0, a.pool), BodyCode(t, a.pool), s.m, p1);
        }
      }
      if NeverExec(e, s.dict, slots, h) {
        LastsExec(e, pool, s, p, slots, stack, h, n);
      } else {
        var f0 := EndsAt(e, s.dict, slots, h);
        TailNever(e, t, s.dict, slots, h, f0);
        SimExec(e, pool, s, p, slots, stack, h, f0);
        var x := Exec(e, s.dict, slots, h, f0);
        PopStep(s, p1, x.slots, stack, x.heap, a.pool, TV(x.v));
        LastsBody(t, a.pool, s, p1 + 1, x.slots, stack, x.heap, n);
        LastsFrom(Here(s, p1, x.slots, stack + [TV(x.v)], x.heap), Here(s, p1 + 1, x.slots, stack, x.heap), n);
        LastsFrom(Here(s, p, slots, stack, h), Here(s, p1, x.slots, stack + [TV(x.v)], x.heap), n);
      }
  }

  lemma {:induction false} LastsInline(es: RExprs, pool: Pool, s: Site, p: nat, slots: RSlots, stack: seq<MValue>, h: RHeap, n: nat)
    requires AllShaped(es) && Placed(BodyCode(es, pool), s.m, p) && GoodSlots(slots) && GoodHeap(h)
    requires NeverInline(es, s.dict, slots, h)
    ensures Lasts(Here(s, p, slots, stack, h), n)
    decreases n, 2, es, 1
  {
    hide Placed, GoodSlots, GoodHeap, Here, Lasts, ExecBody;
    forall f: nat ensures ExecBody(es, s.dict, slots, h, f).FTimeout? {
      assert ExecInline(es, s.dict, slots, h, f + 1).FTimeout?;
    }
    LastsBody(es, pool, s, p, slots, stack, h, n);
  }

  // ----- Conditionals -----

  lemma BranchNever(e: RExpr, d: Link, slots: RSlots, h: RHeap, f0: nat)
    requires (e.Cond? || e.CondElse?) && NeverExec(e, d, slots, h) && !Exec(e.test, d, slots, h, f0).FTimeout?
    ensures var x := Exec(e.test, d, slots, h, f0);
      x.FVal? && x.v.FBool? && (e.Cond? ==> x.v.b == e.onTrue) && NeverInline(Branch(e, x.v.b), d, x.slots, x.heap)
  {
    hide Exec, ExecInline;
    var x := Exec(e.test, d, slots, h, f0);
    CondMeaning(e, d, slots, h, f0);
    assert Exec(e, d, slots, h, f0).FTimeout?;
    forall f: nat ensures ExecInline(Branch(e, x.v.b), d, x.slots, x.heap, f).FTimeout? {
      var g := Max(f, f0);
      MoreExec(e.test, d, slots, h, f0, g);
      CondMeaning(e, d, slots, h, g);
      assert Exec(e, d, slots, h, g).FTimeout?;
      if !ExecInline(Branch(e, x.v.b), d, x.slots, x.heap, f).FTimeout? { MoreInline(Branch(e, x.v.b), d, x.slots, x.heap, f, g); }
    }
  }

  lemma {:induction false} LastsCond(e: RExpr, pool: Pool, s: Site, p: nat, slots: RSlots, stack: seq<MValue>, h: RHeap, n: nat)
    requires (e.Cond? || e.CondElse?) && Shaped(e) && Placed(Code(e, pool), s.m, p) && GoodSlots(slots) && GoodHeap(h)
    requires NeverExec(e, s.dict, slots, h)
    ensures Lasts(Here(s, p, slots, stack, h), n)
    decreases n, 2, e, 0
  {
    hide Placed, Reaches, TV, GoodHeap, GoodSlots, Good, Here, BodyCode, Exec, ExecInline, Code, Lasts, NeverExec, NeverInline,
         Parts, FirstAt, SecondAt, JumpOver;
    TestPlaced(e, pool, s.m, p);
    if NeverExec(e.test, s.dict, slots, h) {
      LastsExec(e.test, pool, s, p, slots, stack, h, n);
    } else {
      var f0 := EndsAt(e.test, s.dict, slots, h);
      BranchNever(e, s.dict, slots, h, f0);
      SimExec(e.test, pool, s, p, slots, stack, h, f0);
      var x, b := Exec(e.test, s.dict, slots, h, f0), Parts(e, pool);
      var mid := Here(s, GuardAt(b, p), x.slots, stack + [TV(x.v)], x.heap);
      var q := if TakesFirst(e, x.v.b) then FirstAt(b, p) else SecondAt(b, p);
      BranchPlaced(e, pool, s.m, p, x.v.b);
      GoesToBranch(e, pool, s, p, x.v, x.slots, stack, x.heap);
      LastsInline(Branch(e, x.v.b), if TakesFirst(e, x.v.b) then b.guard.pool else b.first.pool, s, q, x.slots, stack, x.heap, n);
      LastsFrom(mid, Here(s, q, x.slots, stack, x.heap), n);
      LastsFrom(Here(s, p, slots, stack, h), mid, n);
    }
  }

  // ----- Sends -----

  lemma SendMeaning(e: RExpr, d: Link, slots: RSlots, h: RHeap, f: nat)
    requires e.SendMsg?
    ensures var r := Exec(e.recv, d, slots, h, f);
      if !r.FVal? then Exec(e, d, slots, h, f) == r
      else
        var a := ExecArgs(e.args, d, r.slots, r.heap, f);
        if !a.FVals? then Exec(e, d, slots, h, f) == a
        else Exec(e, d, slots, h, f).FTimeout? == FApply(e.sel, r.v, a.vs, a.heap, f).FTimeout?
  {
    hide FApply, ExecArgs;
  }

  lemma ArgsNever(e: RExpr, d: Link, slots: RSlots, h: RHeap, f0: nat)
    requires e.SendMsg? && NeverExec(e, d, slots, h) && !Exec(e.recv, d, slots, h, f0).FTimeout?
    ensures var x := Exec(e.recv, d, slots, h, f0);
      && x.FVal?
      && (forall f1: nat :: var y := ExecArgs(e.args, d, x.slots, x.heap, f1);
          y.FTimeout? || (y.FVals? && NeverApply(e.sel, x.v, y.vs, y.heap)))
  {
    hide Exec, ExecArgs, FApply;
    var x := Exec(e.recv, d, slots, h, f0);
    SendMeaning(e, d, slots, h, f0);
    assert Exec(e, d, slots, h, f0).FTimeout?;
    forall f1: nat | !ExecArgs(e.args, d, x.slots, x.heap, f1).FTimeout?
      ensures var y := ExecArgs(e.args, d, x.slots, x.heap, f1); y.FVals? && NeverApply(e.sel, x.v, y.vs, y.heap)
    {
      ApplyNever(e, d, slots, h, f0, f1);
    }
  }

  lemma ApplyNever(e: RExpr, d: Link, slots: RSlots, h: RHeap, f0: nat, f1: nat)
    requires e.SendMsg? && NeverExec(e, d, slots, h) && Exec(e.recv, d, slots, h, f0).FVal?
    requires var x := Exec(e.recv, d, slots, h, f0); !ExecArgs(e.args, d, x.slots, x.heap, f1).FTimeout?
    ensures var x := Exec(e.recv, d, slots, h, f0);
      var y := ExecArgs(e.args, d, x.slots, x.heap, f1); y.FVals? && NeverApply(e.sel, x.v, y.vs, y.heap)
  {
    hide Exec, ExecArgs, FApply;
    var x := Exec(e.recv, d, slots, h, f0);
    var y := ExecArgs(e.args, d, x.slots, x.heap, f1);
    var k := Max(f0, f1);
    MoreExec(e.recv, d, slots, h, f0, k);
    MoreArgs(e.args, d, x.slots, x.heap, f1, k);
    SendMeaning(e, d, slots, h, k);
    assert Exec(e, d, slots, h, k).FTimeout?;
    forall f: nat ensures FApply(e.sel, x.v, y.vs, y.heap, f).FTimeout? {
      var g := Max(f, k);
      MoreExec(e.recv, d, slots, h, f0, g);
      MoreArgs(e.args, d, x.slots, x.heap, f1, g);
      SendMeaning(e, d, slots, h, g);
      assert Exec(e, d, slots, h, g).FTimeout?;
      if !FApply(e.sel, x.v, y.vs, y.heap, f).FTimeout? { MoreApply(e.sel, x.v, y.vs, y.heap, f, g); }
    }
  }

  lemma SendPlaced(e: RExpr, pool: Pool, m: Module, p: nat)
    requires e.SendMsg? && Placed(Code(e, pool), m, p)
    ensures var a := Code(e.recv, pool);
      var b := ArgsCode(e.args, a.pool);
      && Placed(a, m, p) && Placed(b, m, p + |a.words|)
      && Placed(Sym(SendOp(e.sel), SelectorConst(e.sel), b.pool), m, p + |a.words| + |b.words|)
  {
    hide Placed, Sym;
    var a := Code(e.recv, pool);
    var b := ArgsCode(e.args, a.pool);
    var c := Sym(SendOp(e.sel), SelectorConst(e.sel), b.pool);
    PlacedThen(a, Then(b, c), m, p);
    PlacedThen(b, c, m, p + |a.words|);
  }

  lemma StartsRunning(s: Site, p: nat, slots: RSlots, stack: seq<MValue>, h: RHeap)
    ensures Lasts(Here(s, p, slots, stack, h), 0)
  {
  }

  lemma {:induction false} LastsSend(e: RExpr, pool: Pool, s: Site, p: nat, slots: RSlots, stack: seq<MValue>, h: RHeap, n: nat)
    requires e.SendMsg? && Shaped(e) && Placed(Code(e, pool), s.m, p) && GoodSlots(slots) && GoodHeap(h)
    requires NeverExec(e, s.dict, slots, h)
    ensures Lasts(Here(s, p, slots, stack, h), n)
    decreases n, 2, e, 0
  {
    hide Placed, Reaches, Advances, TV, TS, THeap, GoodHeap, GoodSlots, Good, Here, Sym, Exec, ExecArgs, Code, ArgsCode, Lasts,
         NeverExec, NeverApply, Dispatch, FApply;
    if n == 0 {
      StartsRunning(s, p, slots, stack, h);
    } else {
      SendPlaced(e, pool, s.m, p);
      var a := Code(e.recv, pool);
      var b := ArgsCode(e.args, a.pool);
      var p1, p2 := p + |a.words|, p + |a.words| + |b.words|;
      if NeverExec(e.recv, s.dict, slots, h) {
        LastsExec(e.recv, pool, s, p, slots, stack, h, n);
      } else {
        var f0 := EndsAt(e.recv, s.dict, slots, h);
        ArgsNever(e, s.dict, slots, h, f0);
        SimExec(e.recv, pool, s, p, slots, stack, h, f0);
        var x := Exec(e.recv, s.dict, slots, h, f0);
        var mid := Here(s, p1, x.slots, stack + [TV(x.v)], x.heap);
        if NeverArgs(e.args, s.dict, x.slots, x.heap) {
          LastsArgs(e.args, a.pool, s, p1, x.slots, stack + [TV(x.v)], x.heap, n);
        } else {
          var f1: nat :| !ExecArgs(e.args, s.dict, x.slots, x.heap, f1).FTimeout?;
          SimArgs(e.args, a.pool, s, p1, x.slots, stack + [TV(x.v)], x.heap, f1);
          var y := ExecArgs(e.args, s.dict, x.slots, x.heap, f1);
          var at := Here(s, p2, y.slots, stack + [TV(x.v)] + TSeq(y.vs), y.heap);
          SendGoes(e.sel, b.pool, s, p2, x.v, y.vs, y.slots, stack, y.heap);
          var below := CodeFrame(s.m, p2 + |Sym(SendOp(e.sel), SelectorConst(e.sel), b.pool).words|, TS(y.slots), stack, s.dict, s.below);
          LastsApply(e.sel, x.v, y.vs, below, y.heap, n - 1);
          ReachesSelf(at);
          AdvancesBy(at, at, Step(at));
          LastsLonger(at, Step(at), n);
          LastsFrom(mid, at, n);
        }
        LastsFrom(Here(s, p, slots, stack, h), mid, n);
      }
    }
  }

  // ----- Calls -----

  lemma {:induction false} LastsCall(fn: RValue, args: seq<RValue>, below: Stack, h: RHeap, n: nat)
    requires Good(fn) && GoodAll(args) && GoodHeap(h) && NeverCall(fn, args, h)
    ensures Lasts(Invoke(TV(fn), TSeq(args), below, THeap(h)), n)
    decreases n, 3
  {
    hide Reaches, Placed, TS, THeap, GoodHeap, GoodSlots, GoodAll, BlockCode, OpenDict, Lasts, ExecBody, BodyCode;
    assert FCall(fn, args, h, 0).FTimeout?;
    var slots := ArgSlots(args);
    TArgSlots(args);
    var s := Site(Assembled(fn.code, false), fn.dict, below);
    var (dict, h') := OpenDict(h, fn.dict, fn.code.defines, slots);
    var s' := s.(dict := dict);
    BlockPlaced(fn.code, s.m);
    var d := Prologue(fn.code.defines, false, Pool([], []));
    SimPrologue(fn.code.defines, false, s, slots, h);
    forall f: nat ensures ExecBody(fn.code.body, dict, slots, h', f).FTimeout? {
      assert FCall(fn, args, h, f + 1).FTimeout?;
    }
    LastsBody(fn.code.body, d.pool, s', |d.words|, slots, [], h', n);
    LastsFrom(Here(s, 0, slots, [], h), Here(s', |d.words|, slots, [], h'), n);
  }

  /** A call takes at least the step that returns from it. */
  lemma CallAdvances(fn: RValue, args: seq<RValue>, below: Stack, h: RHeap, f: nat)
    requires Good(fn) && GoodAll(args) && GoodHeap(h) && FCall(fn, args, h, f).FVal?
    ensures var r := FCall(fn, args, h, f);
      && Good(r.v) && GoodHeap(r.heap) && Lasts(Invoke(TV(fn), TSeq(args), below, THeap(h)), 0)
      && Advances(Invoke(TV(fn), TSeq(args), below, THeap(h)), Deliver(TV(r.v), below, THeap(r.heap)))
  {
    hide Reaches, Advances, Placed, TS, THeap, GoodHeap, GoodSlots, GoodAll, Decode, BlockCode, OpenDict, ExecBody, BodyCode;
    var slots := ArgSlots(args);
    TArgSlots(args);
    var s := Site(Assembled(fn.code, false), fn.dict, below);
    var (dict, h') := OpenDict(h, fn.dict, fn.code.defines, slots);
    var s' := s.(dict := dict);
    BlockPlaced(fn.code, s.m);
    var d := Prologue(fn.code.defines, false, Pool([], []));
    var b := BodyCode(fn.code.body, d.pool);
    SimPrologue(fn.code.defines, false, s, slots, h);
    SimBody(fn.code.body, d.pool, s', |d.words|, slots, [], h', f - 1);
    var r := ExecBody(fn.code.body, dict, slots, h', f - 1);
    var from, mid, p := Here(s, 0, slots, [], h), Here(s', |d.words|, slots, [], h'), |d.words| + |b.words|;
    var end := Here(s', p, r.slots, [] + [TV(r.v)], r.heap);
    ReachesTrans(from, mid, end);
    DecodeOne(ReturnTop, 0, b.pool, s.m, p);
    StepAt(s', p, r.slots, [] + [TV(r.v)], r.heap, ReturnTop, 0, p + 1);
    AdvancesBy(from, end, Deliver(TV(r.v), below, THeap(r.heap)));
  }

  lemma {:induction false} LastsApply(sel: Selector, recv: RValue, args: seq<RValue>, below: Stack, h: RHeap, n: nat)
    requires Good(recv) && GoodAll(args) && GoodHeap(h) && NeverApply(sel, recv, args, h)
    ensures Lasts(Dispatch(sel, TV(recv), TSeq(args), below, THeap(h)), n)
    decreases n, 5
  {
    hide THeap, GoodHeap, Good, FCall, FWhile, FCount, Deliver, Invoke, CountFrom, Lasts, NeverCall, NeverWhile, NeverCount;
    assert TSeq([]) == [];
    assert FApply(sel, recv, args, h, 0).FTimeout?;
    match sel
    case WhileTrue => WhileApplied(sel, recv, args, h); LastsWhile(sel, recv, args[0], below, h, n);
    case WhileFalse => WhileApplied(sel, recv, args, h); LastsWhile(sel, recv, args[0], below, h, n);
    case ToDo => CountApplied(recv, args, h); LastsCount(recv.n, recv.n, args[0].n, args[1], below, h, n);
    case _ =>
      CallApplied(sel, recv, args, h, below);
      var (fn, xs) := Called(sel, recv, args);
      LastsCall(fn, xs, below, h, n);
  }

  lemma WhileApplied(sel: Selector, recv: RValue, args: seq<RValue>, h: RHeap)
    requires NeverApply(sel, recv, args, h) && (sel == WhileTrue || sel == WhileFalse)
    ensures recv.Closure? && |args| == 1 && NeverWhile(sel, recv, args[0], h)
  {
    hide FWhile;
    assert FApply(sel, recv, args, h, 0).FTimeout?;
    forall f: nat ensures FWhile(sel, recv, args[0], h, f).FTimeout? { assert FApply(sel, recv, args, h, f).FTimeout?; }
  }

  lemma CountApplied(recv: RValue, args: seq<RValue>, h: RHeap)
    requires NeverApply(ToDo, recv, args, h)
    ensures recv.FInt? && |args| == 2 && args[0].FInt? && NeverCount(recv.n, recv.n, args[0].n, args[1], h)
  {
    hide FCount;
    assert FApply(ToDo, recv, args, h, 0).FTimeout?;
    forall f: nat ensures FCount(recv.n, recv.n, args[0].n, args[1], h, f).FTimeout? { assert FApply(ToDo, recv, args, h, f).FTimeout?; }
  }

  /** The block a control message other than a loop calls. */
  function Called(sel: Selector, recv: RValue, args: seq<RValue>): (RValue, seq<RValue>) {
    match (sel, recv)
    case (Value(_), _) => (recv, args)
    case (IfTrue, _) => if |args| == 1 then (args[0], []) else (FNil, [])
    case (IfFalse, _) => if |args| == 1 then (args[0], []) else (FNil, [])
    case (IfTrueIfFalse, FBool(b)) => if |args| == 2 then (if b then args[0] else args[1], []) else (FNil, [])
    case (IfFalseIfTrue, FBool(b)) => if |args| == 2 then (if b then args[1] else args[0], []) else (FNil, [])
    case _ => (FNil, [])
  }

  lemma CallApplied(sel: Selector, recv: RValue, args: seq<RValue>, h: RHeap, below: Stack)
    requires NeverApply(sel, recv, args, h) && sel != WhileTrue && sel != WhileFalse && sel != ToDo
    requires Good(recv) && GoodAll(args)
    ensures var (fn, xs) := Called(sel, recv, args);
      && NeverCall(fn, xs, h) && Good(fn) && GoodAll(xs)
      && Dispatch(sel, TV(recv), TSeq(args), below, THeap(h)) == Invoke(TV(fn), TSeq(xs), below, THeap(h))
  {
    hide FCall, Compiles, AllShaped, THeap, Invoke, Deliver, CountFrom;
    assert FApply(sel, recv, args, h, 0).FTimeout?;
    assert TSeq([]) == [];
    var (fn, xs) := Called(sel, recv, args);
    forall f: nat ensures FCall(fn, xs, h, f).FTimeout? {
      assert FApply(sel, recv, args, h, f).FTimeout?;
    }
  }

  lemma WhileNext(sel: Selector, cond: RValue, body: RValue, h: RHeap, f0: nat)
    requires NeverWhile(sel, cond, body, h) && !FCall(cond, [], h, f0).FTimeout?
    ensures var c := FCall(cond, [], h, f0);
      && c.FVal? && (c.v == FBool(true)) == (sel == WhileTrue)
      && (forall f1: nat :: var b := FCall(body, [], c.heap, f1); b.FTimeout? || (b.FVal? && NeverWhile(sel, cond, body, b.heap)))
  {
    hide FCall;
    var c := FCall(cond, [], h, f0);
    assert FWhile(sel, cond, body, h, f0 + 1).FTimeout?;
    forall f1: nat | !FCall(body, [], c.heap, f1).FTimeout?
      ensures var b := FCall(body, [], c.heap, f1); b.FVal? && NeverWhile(sel, cond, body, b.heap)
    {
      var b, k := FCall(body, [], c.heap, f1), Max(f0, f1);
      MoreCall(cond, [], h, f0, k);
      MoreCall(body, [], c.heap, f1, k);
      assert FWhile(sel, cond, body, h, k + 1).FTimeout?;
      forall f: nat ensures FWhile(sel, cond, body, b.heap, f).FTimeout? {
        var g := Max(f, k);
        MoreCall(cond, [], h, f0, g);
        MoreCall(body, [], c.heap, f1, g);
        assert FWhile(sel, cond, body, h, g + 1).FTimeout?;
        if !FWhile(sel, cond, body, b.heap, f).FTimeout? { MoreWhile(sel, cond, body, b.heap, f, g); }
      }
    }
  }

  lemma {:induction false} LastsWhile(sel: Selector, cond: RValue, body: RValue, below: Stack, h: RHeap, n: nat)
    requires Good(cond) && Good(body) && GoodHeap(h) && NeverWhile(sel, cond, body, h)
    ensures Lasts(Invoke(TV(cond), [], WhileFrame(sel, TV(cond), TV(body), false, below), THeap(h)), n)
    decreases n, 4
  {
    hide THeap, GoodHeap, Good, FCall, FWhile, Reaches, Advances, Invoke, Lasts, NeverCall, NeverWhile;
    var f := WhileFrame(sel, TV(cond), TV(body), false, below);
    var g := f.(inBody := true);
    var from := Invoke(TV(cond), [], f, THeap(h));
    assert TSeq([]) == [];
    if NeverCall(cond, [], h) {
      LastsCall(cond, [], f, h, n);
    } else {
      var f0 := CallEndsAt(cond, [], h);
      WhileNext(sel, cond, body, h, f0);
      CallAdvances(cond, [], f, h, f0);
      var c := FCall(cond, [], h, f0);
      var mid := Invoke(TV(body), [], g, THeap(c.heap));
      assert Deliver(TV(c.v), f, THeap(c.heap)) == mid;
      if n > 0 {
        if NeverCall(body, [], c.heap) {
          LastsCall(body, [], g, c.heap, n - 1);
        } else {
          var f1 := CallEndsAt(body, [], c.heap);
          CallAdvances(body, [], g, c.heap, f1);
          var b := FCall(body, [], c.heap, f1);
          LastsWhile(sel, cond, body, below, b.heap, n - 1);
          LastsLonger(mid, Deliver(TV(b.v), g, THeap(b.heap)), n);
          LastsEarlier(mid, n - 1, n);
        }
        LastsLonger(from, mid, n);
      }
    }
  }

  lemma CallEndsAt(fn: RValue, args: seq<RValue>, h: RHeap) returns (f: nat)
    requires !NeverCall(fn, args, h)
    ensures !FCall(fn, args, h, f).FTimeout?
  {
    f :| !FCall(fn, args, h, f).FTimeout?;
  }

  lemma CountNext(start: int, i: int, stop: int, body: RValue, h: RHeap, f0: nat)
    requires NeverCount(start, i, stop, body, h) && !FCall(body, [FInt(i)], h, f0).FTimeout?
    ensures var b := FCall(body, [FInt(i)], h, f0); b.FVal? && NeverCount(start, i + 1, stop, body, b.heap)
  {
    hide FCall;
    var b := FCall(body, [FInt(i)], h, f0);
    assert FCount(start, i, stop, body, h, f0 + 1).FTimeout?;
    var j := i + 1;
    forall f: nat ensures FCount(start, j, stop, body, b.heap, f).FTimeout? {
      var g := Max(f, f0);
      MoreCall(body, [FInt(i)], h, f0, g);
      assert FCount(start, i, stop, body, h, g + 1).FTimeout?;
      if !FCount(start, j, stop, body, b.heap, f).FTimeout? { MoreCount(start, j, stop, body, b.heap, f, g); }
    }
  }

  lemma {:induction false} LastsCount(start: int, i: int, stop: int, body: RValue, below: Stack, h: RHeap, n: nat)
    requires Good(body) && GoodHeap(h) && NeverCount(start, i, stop, body, h)
    ensures Lasts(CountFrom(start, i, stop, TV(body), below, THeap(h)), n)
    decreases n, 4
  {
    hide THeap, GoodHeap, FCall, Reaches, Advances, Invoke, Lasts, NeverCall;
    assert FCount(start, i, stop, body, h, 0).FTimeout?;
    var f := CountFrame(start, i, stop, TV(body), below);
    var from := Invoke(TV(body), [FInt(i)], f, THeap(h));
    assert TSeq([FInt(i)]) == [FInt(i)];
    if NeverCall(body, [FInt(i)], h) {
      LastsCall(body, [FInt(i)], f, h, n);
    } else {
      var f0 := CallEndsAt(body, [FInt(i)], h);
      CountNext(start, i, stop, body, h, f0);
      CallAdvances(body, [FInt(i)], f, h, f0);
      var b := FCall(body, [FInt(i)], h, f0);
      if n > 0 {
        LastsCount(start, i + 1, stop, body, below, b.heap, n - 1);
        LastsLonger(from, Deliver(TV(b.v), f, THeap(b.heap)), n);
      }
    }
  }

  // ----- Inlined loops -----

  lemma TurnAdvances(l: LoopParts, s: Site, p: nat, slots: RSlots, stack: seq<MValue>, h: RHeap, v: MValue)
    requires LoopChained(l) && Placed(LoopCode(l), s.m, p) && l.tail == One(Pop, 0, l.body.pool)
    ensures Advances(Here(s, TailAt(l, p), slots, stack + [v], h), Here(s, p, slots, stack, h))
  {
    hide Placed, Reaches, Advances, TS, THeap, Here, LoopCode, BodyAt;
    LoopPlaced(l, s.m, p);
    PopStep(s, TailAt(l, p), slots, stack, h, l.body.pool, v);
    BackStep(l, s, p, slots, stack, h);
    AdvancesBy(Here(s, TailAt(l, p), slots, stack + [v], h), Here(s, BackAt(l, p), slots, stack, h), Here(s, p, slots, stack, h));
  }

  lemma LoopNext(e: RExpr, d: Link, slots: RSlots, h: RHeap, f0: nat)
    requires e.Loop? && NeverExec(e, d, slots, h) && !ExecInline(e.guard, d, slots, h, f0).FTimeout?
    ensures var c := ExecInline(e.guard, d, slots, h, f0);
      && c.FVal? && c.v.FBool? && c.v.b == e.onTrue
      && (forall f1: nat :: var b := ExecInline(e.body, d, c.slots, c.heap, f1);
            b.FTimeout? || (b.FVal? && NeverExec(e, d, b.slots, b.heap)))
  {
    hide Exec, ExecInline;
    var c := ExecInline(e.guard, d, slots, h, f0);
    LoopMeaning(e, d, slots, h, f0 + 1);
    assert Exec(e, d, slots, h, f0 + 1).FTimeout?;
    forall f1: nat | !ExecInline(e.body, d, c.slots, c.heap, f1).FTimeout?
      ensures var b := ExecInline(e.body, d, c.slots, c.heap, f1); b.FVal? && NeverExec(e, d, b.slots, b.heap)
    {
      var b, k := ExecInline(e.body, d, c.slots, c.heap, f1), Max(f0, f1);
      MoreInline(e.guard, d, slots, h, f0, k);
      MoreInline(e.body, d, c.slots, c.heap, f1, k);
      LoopMeaning(e, d, slots, h, k + 1);
      assert Exec(e, d, slots, h, k + 1).FTimeout?;
      forall f: nat ensures Exec(e, d, b.slots, b.heap, f).FTimeout? {
        var g := Max(f, k);
        MoreInline(e.guard, d, slots, h, f0, g);
        MoreInline(e.body, d, c.slots, c.heap, f1, g);
        LoopMeaning(e, d, slots, h, g + 1);
        assert Exec(e, d, slots, h, g + 1).FTimeout?;
        if !Exec(e, d, b.slots, b.heap, f).FTimeout? { MoreExec(e, d, b.slots, b.heap, f, g); }
      }
    }
  }

  lemma InlineEndsAt(es: RExprs, d: Link, slots: RSlots, h: RHeap) returns (f: nat)
    requires !NeverInline(es, d, slots, h)
    ensures !ExecInline(es, d, slots, h, f).FTimeout?
  {
    f :| !ExecInline(es, d, slots, h, f).FTimeout?;
  }

  lemma {:induction false} LastsLoop(e: RExpr, pool: Pool, s: Site, p: nat, slots: RSlots, stack: seq<MValue>, h: RHeap, n: nat)
    requires e.Loop? && Shaped(e) && Placed(Code(e, pool), s.m, p) && GoodSlots(slots) && GoodHeap(h)
    requires NeverExec(e, s.dict, slots, h)
    ensures Lasts(Here(s, p, slots, stack, h), n)
    decreases n, 2, e, 0
  {
    hide Placed, Reaches, Advances, TV, GoodHeap, GoodSlots, Good, Here, Decode, BodyCode, Exec, ExecInline, Find, Interned, Code,
         WhileParts, LoopCode, BodyAt, TailAt, ExitAt, LoopEnd, LoopChained, Lasts, NeverExec, NeverInline, Then;
    if n == 0 {
      StartsRunning(s, p, slots, stack, h);
    } else {
      var l, q0 := WhileParts(e, pool), pool.(consts := Interned(pool.consts, SelectorConst(e.sel)));
      WhileIs(e, pool);
      WhilePlaced(e, pool, s.m, p);
      LoopPlaced(l, s.m, p);
      TailAtIs(l, p);
      var from, p1, q := Here(s, p, slots, stack, h), p + |BodyCode(e.guard, q0).words|, BodyAt(l, p);
      if NeverInline(e.guard, s.dict, slots, h) {
        LastsInline(e.guard, q0, s, p, slots, stack, h, n);
      } else {
        var f0 := InlineEndsAt(e.guard, s.dict, slots, h);
        LoopNext(e, s.dict, slots, h, f0);
        SimInline(e.guard, q0, s, p, slots, stack, h, f0);
        var c := ExecInline(e.guard, s.dict, slots, h, f0);
        var mid, body := Here(s, p1, c.slots, stack + [TV(c.v)], c.heap), Here(s, q, c.slots, stack, c.heap);
        TestStep(e.sel, Find(pool.consts, SelectorConst(e.sel)), e.onTrue, LoopEnd(l, p) - q, s, p1, ExitAt(l, p), q, c.v, c.slots, stack, c.heap);
        if NeverInline(e.body, s.dict, c.slots, c.heap) {
          LastsInline(e.body, l.head.pool, s, q, c.slots, stack, c.heap, n);
        } else {
          var f1 := InlineEndsAt(e.body, s.dict, c.slots, c.heap);
          SimInline(e.body, l.head.pool, s, q, c.slots, stack, c.heap, f1);
          var b := ExecInline(e.body, s.dict, c.slots, c.heap, f1);
          var done, again := Here(s, TailAt(l, p), b.slots, stack + [TV(b.v)], b.heap), Here(s, p, b.slots, stack, b.heap);
          TurnAdvances(l, s, p, b.slots, stack, b.heap, TV(b.v));
          LastsLoop(e, pool, s, p, b.slots, stack, b.heap, n - 1);
          LastsLonger(done, again, n);
          LastsFrom(body, done, n);
        }
        LastsFrom(mid, body, n);
        LastsFrom(from, mid, n);
      }
    }
  }

  lemma CountsNext(e: RExpr, start: RValue, d: Link, slots: RSlots, h: RHeap)
    requires e.CountLoop? && NeverCounts(e, start, d, slots, h)
    ensures var c := Operated(Le, ReadSlot(slots, e.slotI), FVal(ReadSlot(slots, e.slotEnd), slots, h));
      && c.FVal? && c.v.FBool? && c.v.b
      && (forall f1: nat :: var b := ExecInline(e.body, d, slots, h, f1);
            b.FTimeout? || (b.FVal? && var t := Bumped(b.slots, e.slotI, b.heap); t.FVal? && NeverCounts(e, start, d, t.slots, b.heap)))
  {
    hide ExecCount, ExecInline, Bumped, ReadSlot, Operated;
    CountMeaning(e, start, d, slots, h, 0);
    CompareIsBool(ReadSlot(slots, e.slotI), ReadSlot(slots, e.slotEnd), slots, h);
    assert ExecCount(e, start, d, slots, h, 0).FTimeout?;
    forall f1: nat | !ExecInline(e.body, d, slots, h, f1).FTimeout?
      ensures var b := ExecInline(e.body, d, slots, h, f1);
        b.FVal? && var t := Bumped(b.slots, e.slotI, b.heap); t.FVal? && NeverCounts(e, start, d, t.slots, b.heap)
    {
      var b := ExecInline(e.body, d, slots, h, f1);
      CountMeaning(e, start, d, slots, h, f1 + 1);
      assert ExecCount(e, start, d, slots, h, f1 + 1).FTimeout?;
      var t := Bumped(b.slots, e.slotI, b.heap);
      BumpStops(b.slots, e.slotI, b.heap);
      forall f: nat ensures ExecCount(e, start, d, t.slots, b.heap, f).FTimeout? {
        var g := Max(f, f1);
        MoreInline(e.body, d, slots, h, f1, g);
        CountMeaning(e, start, d, slots, h, g + 1);
        assert ExecCount(e, start, d, slots, h, g + 1).FTimeout?;
        if !ExecCount(e, start, d, t.slots, b.heap, f).FTimeout? { MoreCountLoop(e, start, d, t.slots, b.heap, f, g); }
      }
    }
  }

  lemma {:induction false} LastsCounts(e: RExpr, start: RValue, pool: Pool, s: Site, p: nat, slots: RSlots, stack: seq<MValue>, h: RHeap, n: nat)
    requires e.CountLoop? && AllShaped(e.body) && Placed(LoopCode(CountParts(e, pool)), s.m, p)
    requires GoodSlots(slots) && GoodHeap(h) && Good(start) && NeverCounts(e, start, s.dict, slots, h)
    ensures Lasts(Here(s, p, slots, stack + [TV(start)], h), n)
    decreases n, 2, e, 0
  {
    hide Placed, Reaches, Advances, TV, GoodHeap, GoodSlots, Good, Here, BodyCode, ExecInline, ExecCount, Operated, Bumped,
         CountParts, LoopCode, BodyAt, TailAt, BackAt, ExitAt, LoopEnd, ReadSlot, HeadCode, LoopChained, Decode, Lasts, NeverInline, NeverCounts;
    var l, kept := CountParts(e, pool), stack + [TV(start)];
    if n == 0 {
      StartsRunning(s, p, slots, kept, h);
    } else {
      TestCount(e, pool, s, p, slots, kept, h);
      CountsNext(e, start, s.dict, slots, h);
      CountIs(e, pool);
      LoopPlaced(l, s.m, p);
      TailAtIs(l, p);
      var q := BodyAt(l, p);
      var body := Here(s, q, slots, kept, h);
      if NeverInline(e.body, s.dict, slots, h) {
        LastsInline(e.body, l.head.pool, s, q, slots, kept, h, n);
      } else {
        var f1 := InlineEndsAt(e.body, s.dict, slots, h);
        SimInline(e.body, l.head.pool, s, q, slots, kept, h, f1);
        var b := ExecInline(e.body, s.dict, slots, h, f1);
        CountTail(e, pool, s, p, b.slots, kept, b.heap, TV(b.v));
        var t := Bumped(b.slots, e.slotI, b.heap);
        BackStep(l, s, p, t.slots, kept, b.heap);
        var done, back, again := Here(s, TailAt(l, p), b.slots, kept + [TV(b.v)], b.heap), Here(s, BackAt(l, p), t.slots, kept, b.heap),
                                 Here(s, p, t.slots, kept, b.heap);
        AdvancesBy(done, back, again);
        LastsCounts(e, start, pool, s, p, t.slots, stack, b.heap, n - 1);
        LastsLonger(done, again, n);
        LastsFrom(body, done, n);
      }
      LastsFrom(Here(s, p, slots, kept, h), body, n);
    }
  }

  lemma StartEnds(e: RExpr, d: Link, slots: RSlots, h: RHeap, f0: nat)
    requires e.CountLoop? && NeverExec(e, d, slots, h) && !Exec(e.start, d, slots, h, f0).FTimeout?
    ensures Exec(e.start, d, slots, h, f0).FVal?
  {
    hide Exec, ExecCount;
    CountLoopMeaning(e, d, slots, h, f0);
    assert Exec(e, d, slots, h, f0).FTimeout?;
  }

  lemma StopEnds(e: RExpr, d: Link, slots: RSlots, h: RHeap, f0: nat, f1: nat)
    requires e.CountLoop? && NeverExec(e, d, slots, h) && Exec(e.start, d, slots, h, f0).FVal?
    requires var x := Exec(e.start, d, slots, h, f0); !Exec(e.stop, d, x.slots[e.slotI := x.v], x.heap, f1).FTimeout?
    ensures var x := Exec(e.start, d, slots, h, f0);
      var y := Exec(e.stop, d, x.slots[e.slotI := x.v], x.heap, f1);
      y.FVal? && NeverCounts(e, x.v, d, y.slots[e.slotEnd := y.v], y.heap)
  {
    hide Exec, ExecCount;
    var x := Exec(e.start, d, slots, h, f0);
    var slots1 := x.slots[e.slotI := x.v];
    var y, k := Exec(e.stop, d, slots1, x.heap, f1), Max(f0, f1);
    MoreExec(e.start, d, slots, h, f0, k);
    MoreExec(e.stop, d, slots1, x.heap, f1, k);
    CountLoopMeaning(e, d, slots, h, k);
    assert Exec(e, d, slots, h, k).FTimeout?;
    var slots2 := y.slots[e.slotEnd := y.v];
    forall f: nat ensures ExecCount(e, x.v, d, slots2, y.heap, f).FTimeout? {
      var g := Max(f, k);
      MoreExec(e.start, d, slots, h, f0, g);
      MoreExec(e.stop, d, slots1, x.heap, f1, g);
      CountLoopMeaning(e, d, slots, h, g);
      assert Exec(e, d, slots, h, g).FTimeout?;
      if !ExecCount(e, x.v, d, slots2, y.heap, f).FTimeout? { MoreCountLoop(e, x.v, d, slots2, y.heap, f, g); }
    }
  }

  lemma {:induction false} LastsCountLoop(e: RExpr, pool: Pool, s: Site, p: nat, slots: RSlots, stack: seq<MValue>, h: RHeap, n: nat)
    requires e.CountLoop? && Shaped(e) && Placed(Code(e, pool), s.m, p) && GoodSlots(slots) && GoodHeap(h)
    requires NeverExec(e, s.dict, slots, h)
    ensures Lasts(Here(s, p, slots, stack, h), n)
    decreases n, 2, e, 1
  {
    hide Placed, Reaches, TS, TV, THeap, GoodHeap, GoodSlots, Good, Here, Code, Exec, ExecCount, CountParts, LoopCode, Wide, Setup,
         Lasts, NeverExec, NeverCounts;
    SetupIs(e, pool);
    var a := Setup(e, pool);
    var u := Code(e.start, pool);
    var t := Code(e.stop, u.pool);
    var i, j := Instr(Op.StoreLocal, e.slotI, u.pool), Instr(Op.StoreLocal, e.slotEnd, t.pool);
    var p1 := p + |u.words|;
    var p3 := p1 + 1 + |i.words|;
    var p4 := p3 + |t.words|;
    var p5 := p4 + |j.words|;
    PlacedThen(a, LoopCode(CountParts(e, a.pool)), s.m, p);
    SetupPlaced(u, i, t, j, s.m, p);
    if NeverExec(e.start, s.dict, slots, h) {
      LastsExec(e.start, pool, s, p, slots, stack, h, n);
    } else {
      var f0 := EndsAt(e.start, s.dict, slots, h);
      StartEnds(e, s.dict, slots, h, f0);
      SimExec(e.start, pool, s, p, slots, stack, h, f0);
      var x := Exec(e.start, s.dict, slots, h, f0);
      var kept, slots1 := stack + [TV(x.v)], x.slots[e.slotI := x.v];
      DupStep(s, p1, x.slots, stack, x.heap, u.pool, TV(x.v));
      assert stack + [TV(x.v), TV(x.v)] == kept + [TV(x.v)];
      SlotStep(s, p1 + 1, x.slots, kept, x.heap, u.pool, e.slotI, x.v);
      var m1, m2, m3 := Here(s, p1, x.slots, kept, x.heap), Here(s, p1 + 1, x.slots, kept + [TV(x.v)], x.heap), Here(s, p3, slots1, kept, x.heap);
      if NeverExec(e.stop, s.dict, slots1, x.heap) {
        LastsExec(e.stop, u.pool, s, p3, slots1, kept, x.heap, n);
      } else {
        var f1 := EndsAt(e.stop, s.dict, slots1, x.heap);
        StopEnds(e, s.dict, slots, h, f0, f1);
        SimExec(e.stop, u.pool, s, p3, slots1, kept, x.heap, f1);
        var y := Exec(e.stop, s.dict, slots1, x.heap, f1);
        SlotStep(s, p4, y.slots, kept, y.heap, t.pool, e.slotEnd, y.v);
        LastsCounts(e, x.v, a.pool, s, p5, y.slots[e.slotEnd := y.v], stack, y.heap, n);
        LastsFrom(Here(s, p4, y.slots, kept + [TV(y.v)], y.heap), Here(s, p5, y.slots[e.slotEnd := y.v], kept, y.heap), n);
        LastsFrom(m3, Here(s, p4, y.slots, kept + [TV(y.v)], y.heap), n);
      }
      LastsFrom(m2, m3, n);
      LastsFrom(m1, m2, n);
      LastsFrom(Here(s, p, slots, stack, h), m1, n);
    }
  }
}
