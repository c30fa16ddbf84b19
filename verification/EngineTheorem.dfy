/** From the source text of a method to the engine: the compiled words do what the method means. */
module EngineTheorem {
  import opened Syntax
  import opened Analysis
  import opened Operands
  import opened LoopGuards
  import CW = ClosureWorld
  import opened Resolve
  import opened Reference
  import opened Frames
  import opened Bytecode
  import opened Codegen
  import opened Engine
  import opened Lowering
  import opened EngineProof
  import opened Divergence
  import opened ClosureTheorem

  // ----- What the parser guarantees survives resolution -----

  lemma {:induction false} ResolvedIsShaped(n: Node, sc: Scopes, iv: set<string>, next: nat, bound: set<string>, args: set<string>, vis: set<string>)
    requires sc.Within? && WellFormed(n, bound, args, vis)
    ensures Shaped(Resolved(n, sc, iv, next).0)
    decreases n, 2
  {
    hide Where, Inlined, WellFormed;
    Pieces(n, bound, args, vis);
    match n
    case Assignment(_, v) => ResolvedIsShaped(v, sc, iv, next, bound, args, vis);
    case Binary(_, l, r) =>
      ResolvedIsShaped(l, sc, iv, next, bound, args, vis);
      ResolvedIsShaped(r, sc, iv, Resolved(l, sc, iv, next).1, bound, args, vis);
    case Send(_, r, a) =>
      if Inlined(n, iv) {
        InlinedIsShaped(n, sc, iv, next, bound, args, vis);
      } else {
        var n1 := Resolved(r, sc, iv, next).1;
        ResolvedIsShaped(r, sc, iv, next, bound, args, vis);
        AllResolvedIsShaped(a, sc, iv, n1, bound, args, vis);
      }
    case Block(_, _, _) => BlockIsShaped(n, sc, iv, bound, args, vis);
    case Return(v) => ResolvedIsShaped(v, sc, iv, next, bound, args, vis);
    case _ =>
  }

  lemma Pieces(n: Node, bound: set<string>, args: set<string>, vis: set<string>)
    requires WellFormed(n, bound, args, vis)
    ensures n.Assignment? || n.Return? ==> WellFormed(n.value, bound, args, vis)
    ensures n.Binary? ==> WellFormed(n.left, bound, args, vis) && WellFormed(n.right, bound, args, vis)
    ensures n.Send? ==> ArgCount(n.args) == Arity(n.sel) && WellFormed(n.recv, bound, args, vis) && AllWellFormed(n.args, bound, args, vis)
  {
  }

  lemma {:induction false} AllResolvedIsShaped(ns: Nodes, sc: Scopes, iv: set<string>, next: nat, bound: set<string>, args: set<string>, vis: set<string>)
    requires sc.Within? && AllWellFormed(ns, bound, args, vis)
    ensures AllShaped(ResolveAll(ns, sc, iv, next).0) && Length(ResolveAll(ns, sc, iv, next).0) == ArgCount(ns)
    decreases ns, 0
  {
    match ns
    case NoNodes =>
    case More(h, t) =>
      ResolvedIsShaped(h, sc, iv, next, bound, args, vis);
      AllResolvedIsShaped(t, sc, iv, Resolved(h, sc, iv, next).1, bound, args, vis);
  }

  lemma {:induction false} BlockIsShaped(b: Node, sc: Scopes, iv: set<string>, bound: set<string>, args: set<string>, vis: set<string>)
    requires b.Block? && WellFormed(b, bound, args, vis)
    ensures AllShaped(ResolveBlock(b, sc, iv).body)
    decreases b, 1
  {
    hide Elems;
    var own := Elems(b.params + b.temps);
    AllResolvedIsShaped(b.body, Within(BlockScope(b, iv), sc), iv - Elems(Declared(b)), |Declared(b)|,
                        bound + own, (args - own) + Elems(b.params), vis - own);
  }

  /** The body of a block compiled in line. */
  lemma {:induction false} BodyIsShaped(b: Node, sc: Scopes, iv: set<string>, next: nat, bound: set<string>, args: set<string>, vis: set<string>)
    requires b.Block? && WellFormed(b, bound, args, vis) && sc.Within?
    ensures AllShaped(ResolveAll(b.body, sc, iv, next).0)
    decreases b, 1
  {
    hide Elems;
    var own := Elems(b.params + b.temps);
    AllResolvedIsShaped(b.body, sc, iv, next, bound + own, (args - own) + Elems(b.params), vis - own);
  }

  lemma {:induction false} InlinedIsShaped(n: Node, sc: Scopes, iv: set<string>, next: nat, bound: set<string>, args: set<string>, vis: set<string>)
    requires sc.Within? && Inlined(n, iv) && WellFormed(n, bound, args, vis)
    ensures Shaped(ResolveInlined(n, sc, iv, next).0)
    decreases n, 1
  {
    Pieces(n, bound, args, vis);
    hide WellFormed, InnerAll, LoopScope, Resolved, ResolveAll;
    OperandsOk(n.args, bound, args, vis);
    match InlineShapeOf(n)
    case InlineIf =>
      ResolvedIsShaped(n.recv, sc, iv, next, bound, args, vis);
      BodyIsShaped(n.args.head, sc, iv, Resolved(n.recv, sc, iv, next).1, bound, args, vis);
    case InlineIfElse => IfElseIsShaped(n, sc, iv, next, bound, args, vis);
    case InlineWhile =>
      BodyIsShaped(n.recv, sc, iv, next, bound, args, vis);
      BodyIsShaped(n.args.head, sc, iv, ResolveAll(n.recv.body, sc, iv, next).1, bound, args, vis);
    case InlineToDo => ToDoIsShaped(n, sc, iv, next, bound, args, vis);
  }

  lemma {:induction false} IfElseIsShaped(n: Node, sc: Scopes, iv: set<string>, next: nat, bound: set<string>, args: set<string>, vis: set<string>)
    requires sc.Within? && Inlined(n, iv) && InlineShapeOf(n) == InlineIfElse && WellFormed(n, bound, args, vis)
    ensures Shaped(ResolveInlined(n, sc, iv, next).0)
    decreases n, 0
  {
    Pieces(n, bound, args, vis);
    hide WellFormed, Resolved, ResolveAll;
    OperandsOk(n.args, bound, args, vis);
    var n1 := Resolved(n.recv, sc, iv, next).1;
    var t := if n.sel == IfFalseIfTrue then n.args.tail.head else n.args.head;
    var f := if n.sel == IfFalseIfTrue then n.args.head else n.args.tail.head;
    ResolvedIsShaped(n.recv, sc, iv, next, bound, args, vis);
    BodyIsShaped(t, sc, iv, n1, bound, args, vis);
    BodyIsShaped(f, sc, iv, ResolveAll(t.body, sc, iv, n1).1, bound, args, vis);
  }

  lemma {:induction false} ToDoIsShaped(n: Node, sc: Scopes, iv: set<string>, next: nat, bound: set<string>, args: set<string>, vis: set<string>)
    requires sc.Within? && Inlined(n, iv) && InlineShapeOf(n) == InlineToDo && WellFormed(n, bound, args, vis)
    ensures Shaped(ResolveInlined(n, sc, iv, next).0)
    decreases n, 0
  {
    Pieces(n, bound, args, vis);
    hide WellFormed, InnerAll, LoopScope, Resolved, ResolveAll;
    OperandsOk(n.args, bound, args, vis);
    var b := ToDoBody(n);
    var n1 := Resolved(n.recv, sc, iv, next + 2).1;
    ResolvedIsShaped(n.recv, sc, iv, next + 2, bound, args, vis);
    ResolvedIsShaped(n.args.head, sc, iv, n1, bound, args, vis);
    assert LoopScope(sc, b.params[0], next).Within? by { LoopScopeIs(sc, b.params[0], next); }
    BodyIsShaped(b, LoopScope(sc, b.params[0], next), iv - {b.params[0]}, Resolved(n.args.head, sc, iv, n1).1, bound, args, vis);
  }

  lemma LoopScopeIs(sc: Scopes, x: string, slot: nat)
    requires sc.Within?
    ensures LoopScope(sc, x, slot).Within?
  {
  }

  lemma OperandsOk(a: Nodes, bound: set<string>, args: set<string>, vis: set<string>)
    requires AllWellFormed(a, bound, args, vis)
    ensures a.More? ==> WellFormed(a.head, bound, args, vis)
    ensures a.More? && a.tail.More? ==> WellFormed(a.tail.head, bound, args, vis)
  {
  }

  // ----- Whole methods -----

  function MethodEnd(m: RBlock, p: Pool): Coded {
    if EndsWithReturn(m.body) then Nothing(p)
    else Then(if m.body.RNil? then Nothing(p) else One(Pop, 0, p), Then(One(PushLocal, 0, p), One(Op.Return, 0, p)))
  }

  lemma MethodPlaced(m: RBlock)
    requires Compiles(m, true)
    ensures var d := Prologue(m.defines, true, Pool([], []));
      var b, w := BodyCode(m.body, d.pool), Assembled(m, true);
      Placed(d, w, 0) && Placed(b, w, |d.words|) && Placed(MethodEnd(m, b.pool), w, |d.words| + |b.words|)
  {
    hide CodeAt, BodyCode, Prologue, EndsWithReturn;
    var d := Prologue(m.defines, true, Pool([], []));
    var b := BodyCode(m.body, d.pool);
    var c, w := BlockCode(m, true), Assembled(m, true);
    WholeCode(c.words);
    assert c == Then(d, Then(b, MethodEnd(m, b.pool)));
    PlacedThen(d, Then(b, MethodEnd(m, b.pool)), w, 0);
    PlacedThen(b, MethodEnd(m, b.pool), w, |d.words|);
  }

  /** A body that ends with `^` never falls off its end. */
  lemma {:induction false} ReturnLeaves(es: RExprs, d: Link, slots: RSlots, h: RHeap, fuel: nat)
    requires EndsWithReturn(es)
    ensures !ExecBody(es, d, slots, h, fuel).FVal?
    decreases es
  {
    if es.tail.RCons? {
      var a := Exec(es.head, d, slots, h, fuel);
      if a.FVal? { ReturnLeaves(es.tail, d, a.slots, a.heap, fuel); }
    }
  }

  /** The trailer: drop the last value, push self from slot 0 and return it. */
  lemma TrailerReturns(m: RBlock, pool: Pool, s: Site, p: nat, slots: RSlots, v: MValue, h: RHeap)
    requires !EndsWithReturn(m.body) && Placed(MethodEnd(m, pool), s.m, p)
    requires GoodSlots(slots) && GoodHeap(h) && ReadSlot(slots, 0) == FSelf
    ensures Reaches(Here(s, p, slots, [v], h), Halted(Returned(FSelf), THeap(h)))
  {
    hide Placed, Reaches, TS, THeap, GoodSlots, GoodHeap, Decode, ReadSlot, EndsWithReturn;
    var self, ret := One(PushLocal, 0, pool), One(Op.Return, 0, pool);
    var pop := if m.body.RNil? then Nothing(pool) else One(Pop, 0, pool);
    PlacedThen(pop, Then(self, ret), s.m, p);
    var q := p + |pop.words|;
    PlacedThen(self, ret, s.m, q);
    var below: seq<MValue> := if m.body.RNil? then [v] else [];
    if m.body.RNil? {
      ReachesSelf(Here(s, p, slots, [v], h));
    } else {
      assert [] + [v] == [v];
      PopStep(s, p, slots, [], h, pool, v);
    }
    var a, b, c := Here(s, p, slots, [v], h), Here(s, q, slots, below, h), Here(s, q + 1, slots, below + [FSelf], h);
    DecodeOne(PushLocal, 0, pool, s.m, q);
    TReadSlot(slots, 0);
    PushStep(s, q, slots, below, h, PushLocal, 0, q + 1, FSelf);
    DecodeOne(Op.Return, 0, pool, s.m, q + 1);
    StepAt(s, q + 1, slots, below + [FSelf], h, Op.Return, 0, q + 2);
    ReachesStep(c, Halted(Returned(FSelf), THeap(h)));
    ReachesTrans(a, b, c);
    ReachesTrans(a, c, Halted(Returned(FSelf), THeap(h)));
  }

  /** The assembled method halts as the resolved method ends. */
  lemma SimMethod(m: RBlock, args: seq<RValue>, self: map<string, RValue>, fuel: nat)
    requires Compiles(m, true) && AllShaped(m.body) && GoodAll(args) && GoodBinds(self)
    requires SlotsRun(m, args, self, fuel).FVal? ==> ReadSlot(SlotsRun(m, args, self, fuel).slots, 0) == FSelf
    ensures var r := FRun(m, args, self, fuel);
      r.FStop? ==> Reaches(Start(Assembled(m, true), TSeq(args), TB(self)), Halted(TWhy(r.why), THeap(r.heap)))
  {
    hide Placed, Reaches, TS, GoodSlots, GoodAll, BlockCode, OpenDict, ExecBody, BodyCode, Prologue, ArgSlots, EndsWithReturn, TSeq, ReadSlot;
    var full, h0 := [FSelf] + args, Heap([], self);
    var slots := ArgSlots(full);
    SelfFirst(args);
    TArgSlots(full);
    var s := Site(Assembled(m, true), NoDict, Bottom);
    var from, r := Start(s.m, TSeq(args), TB(self)), FRun(m, args, self, fuel);
    assert from == Here(s, 0, slots, [], h0) by { assert THeap(h0) == Heap([], TB(self)); }
    var (dict, h) := OpenDict(h0, NoDict, m.defines, slots);
    var d := Prologue(m.defines, true, Pool([], []));
    var b := BodyCode(m.body, d.pool);
    var s' := s.(dict := dict);
    MethodPlaced(m);
    SimPrologue(m.defines, true, s, slots, h0);
    var mid := Here(s', |d.words|, slots, [], h);
    SimBody(m.body, d.pool, s', |d.words|, slots, [], h, fuel);
    var x := ExecBody(m.body, dict, slots, h, fuel);
    if x.FVal? {
      if EndsWithReturn(m.body) { ReturnLeaves(m.body, dict, slots, h, fuel); assert false; }
      var end := Here(s', |d.words| + |b.words|, x.slots, [] + [TV(x.v)], x.heap);
      assert [] + [TV(x.v)] == [TV(x.v)];
      TrailerReturns(m, b.pool, s', |d.words| + |b.words|, x.slots, TV(x.v), x.heap);
      ReachesTrans(mid, end, Halted(Returned(FSelf), THeap(x.heap)));
    }
    if r.FStop? { ReachesTrans(from, mid, Halted(TWhy(r.why), THeap(r.heap))); }
  }

  lemma SelfFirst(args: seq<RValue>)
    requires GoodAll(args)
    ensures GoodAll([FSelf] + args) && TSeq([FSelf] + args) == [FSelf] + TSeq(args)
  {
  }

  /** Both runs end alike: same reason, same answer, same instance variables. */
  predicate HaltsAlike(r: Result, s: Machine) {
    r.Stop? && s.Halted? && SameWhy(r.why, s.why) && SameSelf(r.st.self, s.heap.self)
  }

  /** All that the machine halted with corresponds to what the evaluation ended with, value for value:
      the answer or the operands in hand, the instance variables, the captured variables. */
  ghost predicate HaltsRelated(r: Result, s: Machine, clean: bool) {
    r.Stop? && exists why: Why<RValue>, h: RHeap, w: CW.World ::
      s == Halted(TWhy(why), THeap(h)) && w.clean == clean && CW.WhyRel(r.why, why, w) && CW.HeapRel(r.st, h, w)
  }

  lemma LowerTwice(args: seq<Value>, self: map<string, Value>)
    requires AllPlain(args) && PlainSelf(self)
    ensures GoodAll(LowerAll(args)) && GoodBinds(LowerSelf(self))
    ensures TSeq(LowerAll(args)) == LowerAll(args) && TB(LowerSelf(self)) == LowerSelf(self)
  {
    assert forall i :: 0 <= i < |args| ==> TV(LowerAll(args)[i]) == Lower(args[i]);
    assert forall x | x in self :: TV(LowerSelf(self)[x]) == Lower(self[x]);
  }

  lemma AlikeThrough(r: Result, f: FResult, clean: bool)
    requires EndsAlike(r, f) && EndsRelated(r, f, clean) && f.FStop?
    ensures HaltsAlike(r, Halted(TWhy(f.why), THeap(f.heap))) && HaltsRelated(r, Halted(TWhy(f.why), THeap(f.heap)), clean)
  {
    hide CW.WhyRel, CW.HeapRel;
    var w: CW.World :| w.clean == clean && CW.WhyRel(r.why, f.why, w) && CW.HeapRel(r.st, f.heap, w);
  }

  /** Whenever a method ends, its compiled words make the engine halt for the same reason, with the
      same answer and the same instance variables. Literal while loops insist on a Boolean guard. */
  lemma CompiledMethodHalts(m: Method, ivars: set<string>, args: seq<Value>, self: map<string, Value>, fuel: nat)
    returns (n: nat)
    requires MethodWellFormed(m, ivars) && |args| == |m.params| && AllPlain(args) && PlainSelf(self)
    requires Compiles(ResolveMethod(m, ivars), true)
    requires !Run(m, args, self, true, fuel).Timeout?
    ensures var r := Run(m, args, self, true, fuel);
      var s := Steps(Start(Assembled(ResolveMethod(m, ivars), true), LowerAll(args), LowerSelf(self)), n);
      HaltsAlike(r, s) && HaltsRelated(r, s, CleanMethod(m, ivars))
  {
    hide ResolveMethod, Compiles, Run, Assembled, Start, FRun, SlotsRun, MethodWellFormed, CellsRun, CleanMethod, HaltsRelated;
    var code, fargs: seq<RValue>, fself: map<string, RValue> := ResolveMethod(m, ivars), LowerAll(args), LowerSelf(self);
    ClosureConversionPreservesMeaning(m, ivars, args, self, fuel);
    BodiesAgree(m, ivars, args, self, fuel);
    MethodIsShaped(m, ivars);
    LowerTwice(args, self);
    SimMethod(code, fargs, fself, fuel);
    var f, start := FRun(code, fargs, fself, fuel), Start(Assembled(code, true), TSeq(fargs), TB(fself));
    AlikeThrough(Run(m, args, self, true, fuel), f, CleanMethod(m, ivars));
    n :| Steps(start, n) == Halted(TWhy(f.why), THeap(f.heap));
  }

  /** No guard of a literal while loop answers a non-Boolean in this much of the run. */
  predicate GuardsAnswer(m: Method, args: seq<Value>, self: map<string, Value>, fuel: nat) {
    !Balks(Run(m, args, self, true, fuel))
  }

  /** The main result. A method's meaning sends every control message to its primitive. Whenever the
      method ends, its compiled words make the engine halt for the same reason, with the same answer and
      the same instance variables, as long as the guards of its literal loops answer Booleans; and all
      it halts with corresponds, when the method is clean. */
  lemma CompiledMethodDoesTheSame(m: Method, ivars: set<string>, args: seq<Value>, self: map<string, Value>, fuel: nat)
    returns (n: nat)
    requires MethodWellFormed(m, ivars) && |args| == |m.params| && AllPlain(args) && PlainSelf(self)
    requires Compiles(ResolveMethod(m, ivars), true) && GuardsAnswer(m, args, self, fuel)
    requires !Run(m, args, self, false, fuel).Timeout?
    ensures var r := Run(m, args, self, false, fuel);
      var s := Steps(Start(Assembled(ResolveMethod(m, ivars), true), LowerAll(args), LowerSelf(self)), n);
      HaltsAlike(r, s) && HaltsRelated(r, s, CleanMethod(m, ivars))
  {
    hide ResolveMethod, Compiles, Run, Assembled, Start, MethodWellFormed, CleanMethod, HaltsRelated, HaltsAlike;
    LoopsAgreeExactly(m, args, self, fuel);
    n := CompiledMethodHalts(m, ivars, args, self, fuel);
  }

  /** A guard that is no Boolean makes the engine halt there, where the primitive would have gone on. */
  lemma BalkingGuardHalts(m: Method, ivars: set<string>, args: seq<Value>, self: map<string, Value>, fuel: nat)
    returns (n: nat)
    requires MethodWellFormed(m, ivars) && |args| == |m.params| && AllPlain(args) && PlainSelf(self)
    requires Compiles(ResolveMethod(m, ivars), true) && !GuardsAnswer(m, args, self, fuel)
    ensures var r := Run(m, args, self, true, fuel);
      var s := Steps(Start(Assembled(ResolveMethod(m, ivars), true), LowerAll(args), LowerSelf(self)), n);
      s.Halted? && s.why.Dnu? && s.why.sel == r.why.sel && !s.why.recv.FBool?
      && Run(m, args, self, false, fuel) != r && !Balks(Run(m, args, self, false, fuel))
  {
    hide ResolveMethod, Compiles, Run, Assembled, Start, MethodWellFormed, CleanMethod, HaltsRelated;
    LoopsAgreeExactly(m, args, self, fuel);
    n := CompiledMethodHalts(m, ivars, args, self, fuel);
  }

  lemma MethodIsShaped(m: Method, ivars: set<string>)
    requires MethodWellFormed(m, ivars)
    ensures AllShaped(ResolveMethod(m, ivars).body)
  {
    hide MethodScope, Elems;
    var names := m.params + m.temps;
    AllResolvedIsShaped(m.body, Within(MethodScope(m, ivars), NoScope), ivars - Elems(names), 1 + |names|,
                        Elems(names), Elems(m.params), ivars - Elems(names));
  }

  /** A method that never ends keeps the engine running. */
  lemma MethodLasts(m: RBlock, args: seq<RValue>, self: map<string, RValue>, n: nat)
    requires Compiles(m, true) && AllShaped(m.body) && GoodAll(args) && GoodBinds(self)
    requires forall f: nat :: FRun(m, args, self, f).FTimeout?
    ensures Lasts(Start(Assembled(m, true), TSeq(args), TB(self)), n)
  {
    hide Placed, Reaches, TS, GoodSlots, GoodAll, BlockCode, OpenDict, ExecBody, BodyCode, Prologue, ArgSlots, TSeq, Lasts;
    var full, h0 := [FSelf] + args, Heap([], self);
    var slots := ArgSlots(full);
    SelfFirst(args);
    TArgSlots(full);
    var s := Site(Assembled(m, true), NoDict, Bottom);
    var from := Start(s.m, TSeq(args), TB(self));
    assert from == Here(s, 0, slots, [], h0) by { assert THeap(h0) == Heap([], TB(self)); }
    var (dict, h) := OpenDict(h0, NoDict, m.defines, slots);
    var d := Prologue(m.defines, true, Pool([], []));
    MethodPlaced(m);
    SimPrologue(m.defines, true, s, slots, h0);
    forall f: nat ensures ExecBody(m.body, dict, slots, h, f).FTimeout? {
      assert FRun(m, args, self, f).FTimeout?;
    }
    LastsBody(m.body, d.pool, s.(dict := dict), |d.words|, slots, [], h, n);
    LastsFrom(from, Here(s.(dict := dict), |d.words|, slots, [], h), n);
  }

  /** A method whose evaluation never ends never makes the engine halt, nor crash. */
  lemma EndlessMethodNeverHalts(m: Method, ivars: set<string>, args: seq<Value>, self: map<string, Value>, n: nat)
    requires MethodWellFormed(m, ivars) && |args| == |m.params| && AllPlain(args) && PlainSelf(self)
    requires Compiles(ResolveMethod(m, ivars), true)
    requires forall fuel: nat :: Run(m, args, self, true, fuel).Timeout?
    ensures Steps(Start(Assembled(ResolveMethod(m, ivars), true), LowerAll(args), LowerSelf(self)), n).Running?
  {
    hide ResolveMethod, Compiles, Run, Assembled, Start, FRun, MethodWellFormed;
    var code, fargs: seq<RValue>, fself: map<string, RValue> := ResolveMethod(m, ivars), LowerAll(args), LowerSelf(self);
    forall f: nat ensures FRun(code, fargs, fself, f).FTimeout? {
      ClosureConversionPreservesMeaning(m, ivars, args, self, f);
      assert Run(m, args, self, true, f).Timeout?;
    }
    MethodIsShaped(m, ivars);
    LowerTwice(args, self);
    MethodLasts(code, fargs, fself, n);
  }

  /** The engine halts exactly when the method ends, whichever way, and never crashes; and whenever it
      has halted, however long one let it run, it has halted alike. */
  lemma EngineHaltsExactlyWhenMethodEnds(m: Method, ivars: set<string>, args: seq<Value>, self: map<string, Value>)
    requires MethodWellFormed(m, ivars) && |args| == |m.params| && AllPlain(args) && PlainSelf(self)
    requires Compiles(ResolveMethod(m, ivars), true)
    requires forall fuel: nat :: GuardsAnswer(m, args, self, fuel)
    ensures var start := Start(Assembled(ResolveMethod(m, ivars), true), LowerAll(args), LowerSelf(self));
      && ((exists fuel: nat :: !Run(m, args, self, false, fuel).Timeout?) <==> (exists n: nat :: Steps(start, n).Halted?))
      && (forall n: nat :: !Steps(start, n).Crashed?)
      && (forall fuel: nat, n: nat | !Run(m, args, self, false, fuel).Timeout? && Steps(start, n).Halted? ::
            HaltsAlike(Run(m, args, self, false, fuel), Steps(start, n)))
  {
    hide ResolveMethod, Compiles, Run, Assembled, Start, MethodWellFormed, HaltsAlike, HaltsRelated, CleanMethod;
    var start: Machine := Start(Assembled(ResolveMethod(m, ivars), true), LowerAll(args), LowerSelf(self));
    if fuel: nat :| !Run(m, args, self, false, fuel).Timeout? {
      assert GuardsAnswer(m, args, self, fuel);
      var n := CompiledMethodDoesTheSame(m, ivars, args, self, fuel);
      assert Steps(start, n).Halted? by { HaltsMeansHalted(Run(m, args, self, false, fuel), Steps(start, n)); }
      forall k: nat ensures !Steps(start, k).Crashed? { HaltedNeverCrashed(start, n, k); }
    } else {
      forall f: nat ensures Run(m, args, self, true, f).Timeout? {
        assert GuardsAnswer(m, args, self, f);
        LoopsAgreeExactly(m, args, self, f);
      }
      forall n: nat ensures Steps(start, n).Running? { EndlessMethodNeverHalts(m, ivars, args, self, n); }
    }
    forall fuel: nat, n: nat | !Run(m, args, self, false, fuel).Timeout? && Steps(start, n).Halted?
      ensures HaltsAlike(Run(m, args, self, false, fuel), Steps(start, n))
    {
      assert GuardsAnswer(m, args, self, fuel);
      var k := CompiledMethodDoesTheSame(m, ivars, args, self, fuel);
      HaltsMeansHalted(Run(m, args, self, false, fuel), Steps(start, k));
      EndIsUnique(start, n, k);
    }
  }

  /** For a method whose text ends every loop guard with a comparison or a Boolean literal, and has no
      block literal for an operand of an inlined send, nothing need be known of the run. */
  lemma GuardedMethodCompiles(m: Method, ivars: set<string>, args: seq<Value>, self: map<string, Value>, fuel: nat)
    returns (n: nat)
    requires MethodWellFormed(m, ivars) && |args| == |m.params| && AllPlain(args) && PlainSelf(self)
    requires Compiles(ResolveMethod(m, ivars), true) && AllGuarded(m.body) && NoneLiteralOperand(m.body)
    requires !Run(m, args, self, false, fuel).Timeout?
    ensures var r := Run(m, args, self, false, fuel);
      var s := Steps(Start(Assembled(ResolveMethod(m, ivars), true), LowerAll(args), LowerSelf(self)), n);
      HaltsAlike(r, s) && HaltsRelated(r, s, true)
  {
    hide ResolveMethod, Compiles, Run, Assembled, Start, MethodWellFormed, HaltsAlike, HaltsRelated, AllGuarded;
    PlainValuesOk(args, self);
    GuardedMethodAgrees(m, args, self, fuel);
    var own := Elems(m.params + m.temps);
    NoneLiteralIsClean(m.body, own - MethodCaptured(m, ivars), ivars - own);
    n := CompiledMethodDoesTheSame(m, ivars, args, self, fuel);
  }

  lemma PlainValuesOk(args: seq<Value>, self: map<string, Value>)
    requires AllPlain(args) && PlainSelf(self)
    ensures (forall i | 0 <= i < |args| :: ValueOk(args[i])) && forall x | x in self :: ValueOk(self[x])
  {
  }

  lemma HaltsMeansHalted(r: Result, s: Machine)
    requires HaltsAlike(r, s)
    ensures s.Halted?
  {
  }

  lemma {:induction false} CrashStays(s: Machine, m: nat, n: nat)
    requires m <= n && Steps(s, m).Crashed?
    ensures Steps(s, n).Crashed?
    decreases n - m
  {
    if m < n {
      StepsAdd(s, m, 1);
      assert Steps(Steps(s, m), 1) == Step(Steps(s, m));
      CrashStays(s, m + 1, n);
    }
  }

  lemma HaltedNeverCrashed(s: Machine, n: nat, k: nat)
    requires Steps(s, n).Halted?
    ensures !Steps(s, k).Crashed?
  {
    if k <= n {
      if Steps(s, k).Crashed? { CrashStays(s, k, n); }
    } else {
      Stays(s, n, k - n);
    }
  }
}
