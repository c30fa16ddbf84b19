/** Closure conversion preserves meaning, for every method the compiler accepts. */
module ClosureTheorem {
  import opened Syntax
  import opened Analysis
  import opened Operands
  import opened OwnSlots
  import opened Resolve
  import opened Reference
  import opened Frames
  import opened ClosureWorld
  import opened ClosureProof
  import opened ClosureSim

  /** What an observer who cannot look inside a block sees of two values. */
  predicate Same<C>(v: Value, f: FValue<C>) {
    match v
    case IntV(n) => f == FInt(n)
    case BoolV(b) => f == FBool(b)
    case NilV => f == FNil
    case SelfV => f == FSelf
    case BlockV(_, _) => f.Closure?
  }

  predicate SameSelf<C>(a: map<string, Value>, b: map<string, FValue<C>>) {
    a.Keys == b.Keys && forall x | x in a :: Same(a[x], b[x])
  }

  predicate SameWhy<C>(a: Why<Value>, b: Why<FValue<C>>) {
    match a
    case Returned(v) => b.Returned? && Same(v, b.v)
    case Dnu(s, v) => b.Dnu? && b.sel == s && Same(v, b.recv)
    case LoopNotBoolean(s, v) => b.Dnu? && b.sel == s && Same(v, b.recv)
    case NotInteger(l, r) => b.NotInteger? && Same(l, b.left) && Same(r, b.right)
    case NotABlock => b == NotABlock
    case WrongArgCount => b == WrongArgCount
    case NoDictionary => b == NoDictionary
  }

  /** Values a caller may hand to a method: anything but a block. */
  predicate Plain(v: Value) { !v.BlockV? }

  function Lower<C>(v: Value): FValue<C>
    requires Plain(v)
  {
    match v
    case IntV(n) => FInt(n)
    case BoolV(b) => FBool(b)
    case NilV => FNil
    case SelfV => FSelf
  }

  predicate AllPlain(vs: seq<Value>) { forall i :: 0 <= i < |vs| ==> Plain(vs[i]) }
  predicate PlainSelf(self: map<string, Value>) { forall x | x in self :: Plain(self[x]) }

  function LowerAll<C>(vs: seq<Value>): seq<FValue<C>>
    requires AllPlain(vs)
  {
    seq(|vs|, i requires 0 <= i < |vs| => Lower(vs[i]))
  }

  function LowerSelf<C>(self: map<string, Value>): map<string, FValue<C>>
    requires PlainSelf(self)
  {
    map x | x in self :: Lower(self[x])
  }

  /** Both runs end alike: same reason, same answer, same instance variables. */
  predicate EndsAlike(r: Result, f: FResult) {
    match r
    case Stop(why, st) => f.FStop? && SameWhy(why, f.why) && SameSelf(st.self, f.heap.self)
    case Timeout => f.FTimeout?
    case _ => false
  }

  /** Both runs end alike, and everything they end with corresponds, blocks included: the answer or the
      receiver and operands in hand, every instance variable, every captured variable. */
  ghost predicate EndsRelated(r: Result, f: FResult, clean: bool) {
    match r
    case Stop(why, st) => f.FStop? && exists w: World :: w.clean == clean && WhyRel(why, f.why, w) && HeapRel(st, f.heap, w)
    case Timeout => f.FTimeout?
    case _ => false
  }

  ghost predicate StaysRelated(st: State, h: RHeap, clean: bool) { exists w: World :: w.clean == clean && HeapRel(st, h, w) }

  lemma MethodSiteOk(m: Method, ivars: set<string>, k: nat, d: Link)
    requires MethodWellFormed(m, ivars)
    ensures var names := m.params + m.temps;
      var p := FrameSite(names, 1, MethodCaptured(m, ivars), Elems(m.params), NoScope, map[], {},
                         Elems(m.params), ivars - Elems(names), k, d);
      SiteOk(p, 1 + |names|) && AllCodeOk(m.body, p, CleanMethod(m, ivars)) && MethodCaptured(m, ivars) <= Elems(names)
  {
    var names := m.params + m.temps;
    var p := FrameSite(names, 1, MethodCaptured(m, ivars), Elems(m.params), NoScope, map[], {},
                       Elems(m.params), ivars - Elems(names), k, d);
    MethodCapturesOnlyItsOwn(m, ivars);
    NumberKeys(names, 1);
    forall x | x in Elems(names) ensures Number(names, 1)[x] < 1 + |names| {
      var j := NumberAt(names, 1, 0, x);
    }
    forall x, y | x in Elems(names) && y in Elems(names) && x != y ensures Number(names, 1)[x] != Number(names, 1)[y] {
      var i := NumberAt(names, 1, 0, x);
      var j := NumberAt(names, 1, 0, y);
    }
    assert Bound(p.sc) == Elems(names);
    assert PlainOf(p.sc) == Elems(names) - MethodCaptured(m, ivars);
    MethodNamesBound(m.body, Elems(names), Elems(m.params), p.iv);
    InnerAllAvoidsInstVars(m.body, p.iv);
  }

  /** Every name the code of a well-formed method body uses is in scope. */
  lemma {:induction false} NamesBound(n: Node, bound: set<string>, args: set<string>, iv: set<string>)
    requires WellFormed(n, bound, args, iv)
    ensures Direct(n, iv) <= bound + iv && Inner(n, iv) <= bound + iv
    ensures n.Block? ==> FreeDirect(n, iv) <= bound + iv
    decreases n, 1
  {
    match n
    case Assignment(_, v) => NamesBound(v, bound, args, iv);
    case Binary(_, l, r) => NamesBound(l, bound, args, iv); NamesBound(r, bound, args, iv);
    case Send(_, r, a) => NamesBound(r, bound, args, iv); MethodNamesBound(a, bound, args, iv);
    case Return(v) => NamesBound(v, bound, args, iv);
    case Block(ps, ts, body) =>
      var own := Elems(ps + ts);
      MethodNamesBound(body, bound + own, (args - own) + Elems(ps), iv - own);
    case _ =>
  }

  lemma {:induction false} MethodNamesBound(ns: Nodes, bound: set<string>, args: set<string>, iv: set<string>)
    requires AllWellFormed(ns, bound, args, iv)
    ensures DirectAll(ns, iv) <= bound + iv && InnerAll(ns, iv) <= bound + iv
    ensures SplitDirectAll(ns, iv) <= bound + iv && SplitInnerAll(ns, iv) <= bound + iv
    decreases ns, 0
  {
    match ns
    case NoNodes =>
    case More(h, t) => NamesBound(h, bound, args, iv); MethodNamesBound(t, bound, args, iv);
  }

  lemma LowerRel(vs: seq<Value>, self: map<string, Value>, w: World)
    requires AllPlain(vs) && PlainSelf(self)
    ensures AllRel(vs, LowerAll(vs), w) && SelfRel(self, LowerSelf(self), w)
  {
  }

  lemma RelIsSame(v: Value, f: RValue, w: World)
    requires OperandRel(v, f, w)
    ensures Same(v, f)
  {
    hide CloRel;
  }

  lemma RelatedIsAlike(r: Result, f: FResult, clean: bool)
    requires EndsRelated(r, f, clean)
    ensures EndsAlike(r, f)
  {
    hide CellOk, ValRel, Same;
    if r.Stop? {
      var w: World :| w.clean == clean && WhyRel(r.why, f.why, w) && HeapRel(r.st, f.heap, w);
      match r.why {
        case Returned(v) => RelIsSame(v, f.why.v, w);
        case Dnu(_, v) => RelIsSame(v, f.why.recv, w);
        case LoopNotBoolean(_, v) => RelIsSame(v, f.why.recv, w);
        case NotInteger(a, b) => RelIsSame(a, f.why.left, w); RelIsSame(b, f.why.right, w);
        case _ =>
      }
      forall x | x in r.st.self ensures Same(r.st.self[x], f.heap.self[x]) { RelIsSame(r.st.self[x], f.heap.self[x], w); }
    }
  }

  /** The body of a method run over cells and over slots and dictionaries. */
  function CellsRun(m: Method, args: seq<Value>, self: map<string, Value>, fuel: nat): Result {
    EvalBody(m.body, Activate(map[], m.params + m.temps, State([], self)), State(args + Nils(|m.temps|), self), true, fuel)
  }

  function SlotsRun(m: RBlock, args: seq<RValue>, self: map<string, RValue>, fuel: nat): FResult {
    var slots := ArgSlots([FSelf] + args);
    var (d, h) := OpenDict(Heap([], self), NoDict, m.defines, slots);
    ExecBody(m.body, d, slots, h, fuel)
  }

  lemma BodiesAgree(m: Method, ivars: set<string>, args: seq<Value>, self: map<string, Value>, fuel: nat)
    requires MethodWellFormed(m, ivars) && |args| == |m.params|
    requires AllPlain(args) && PlainSelf(self)
    ensures var r, f := CellsRun(m, args, self, fuel), SlotsRun(ResolveMethod(m, ivars), LowerAll(args), LowerSelf(self), fuel);
      && (r.Val? ==> f.FVal? && StaysRelated(r.st, f.heap, CleanMethod(m, ivars)))
      && (!r.Val? ==> EndsRelated(r, f, CleanMethod(m, ivars)))
      && (f.FVal? ==> ReadSlot(f.slots, 0) == FSelf)
  {
    hide AllCodeOk, SiteOk, EvalBody, ExecBody, HeapRel, Elems, MethodWellFormed, Distinct, MethodCaptured, OpenDict, DefineAll,
         Defines, ArgSlots, Rel, MethodScope, CleanMethod, StaysRelated, EndsRelated;
    var names := m.params + m.temps;
    var fargs: seq<RValue> := LowerAll(args);
    var fself: map<string, RValue> := LowerSelf(self);
    var w0 := World(map[], [], CleanMethod(m, ivars));
    LowerRel(args, self, w0);
    var captured := MethodCaptured(m, ivars);
    var slots := ArgSlots([FSelf] + fargs);
    var (d, h) := OpenDict(Heap([], fself), NoDict, Defines(names, |args|, 1, captured, 0), slots);
    EmptyHeap(self, fself, w0);
    MethodSiteOk(m, ivars, 0, d);
    assert Distinct(names) by { MethodDistinct(m, ivars); }
    var w1 := OpenFrame(names, captured, Elems(m.params), NoScope, map[], NoDict, {}, Elems(m.params), ivars - Elems(names),
                        [FSelf], args, fargs, State([], self), Heap([], fself), w0);
    var p := FrameSite(names, 1, captured, Elems(m.params), NoScope, map[], {}, Elems(m.params), ivars - Elems(names), 0, d);
    var st := State(args + Nils(|m.temps|), self);
    assert State([], self).(cells := [] + (args + Nils(|names| - |args|))) == st;
    assert Activate(map[], names, State([], self)) == p.env;
    var w2 := SimBody(m.body, p, 1 + |names|, st, slots, h, w1, fuel);
    MethodScopeIs(m, ivars, d);
    var r, f := CellsRun(m, args, self, fuel), SlotsRun(ResolveMethod(m, ivars), fargs, fself, fuel);
    SameEnd(r, f, p, 1 + |names|, st, slots, w1, w2);
    if f.FVal? {
      NotAssignable(m, ivars, d);
      SelfStays(r, f, p, 1 + |names|, st, slots, w1, w2, fargs);
    }
  }

  lemma MethodScopeIs(m: Method, ivars: set<string>, d: Link)
    ensures var names := m.params + m.temps;
      FrameSite(names, 1, MethodCaptured(m, ivars), Elems(m.params), NoScope, map[], {}, Elems(m.params), ivars - Elems(names), 0, d).sc
      == Within(MethodScope(m, ivars), NoScope)
  {
  }

  /** Slot 0 of a method holds self and belongs to no name. */
  lemma NotAssignable(m: Method, ivars: set<string>, d: Link)
    ensures var names := m.params + m.temps;
      !Assignable(FrameSite(names, 1, MethodCaptured(m, ivars), Elems(m.params), NoScope, map[], {}, Elems(m.params),
                            ivars - Elems(names), 0, d).sc, 0)
  {
    hide MethodCaptured;
  }

  lemma SelfStays(r: Result, f: FResult, p: Site, next: nat, st: State, slots: RSlots, w: World, w': World, fargs: seq<RValue>)
    requires p.sc.Within? && !r.Vals? && Agree(r, f, p, next, st, slots, w, w') && f.FVal?
    requires next > 0 && !Assignable(p.sc, 0) && slots == ArgSlots([FSelf] + fargs)
    ensures ReadSlot(f.slots, 0) == FSelf
  {
    hide ValRel, Rel, CellsKept, Assignable;
    assert ReadSlot(slots, 0) == FSelf;
  }

  /** The main result: for every accepted method, all arguments and instance variables and any
      amount of fuel, the resolved code over slots and captured dictionaries ends exactly as the
      evaluation over lexical cells does: same reason, same answer, same instance variables. And all
      that the two end with corresponds, variable for variable and block for block; only where the
      method is not clean may the block literal it stops at be excepted. */
  lemma ClosureConversionPreservesMeaning(m: Method, ivars: set<string>, args: seq<Value>, self: map<string, Value>, fuel: nat)
    requires MethodWellFormed(m, ivars) && |args| == |m.params|
    requires AllPlain(args) && PlainSelf(self)
    ensures var r, f := Run(m, args, self, true, fuel), FRun(ResolveMethod(m, ivars), LowerAll(args), LowerSelf(self), fuel);
      EndsAlike(r, f) && EndsRelated(r, f, CleanMethod(m, ivars))
  {
    hide EvalBody, ExecBody, ResolveMethod, OpenDict, ArgSlots, Activate, MethodWellFormed, HeapRel, CleanMethod, EndsAlike;
    BodiesAgree(m, ivars, args, self, fuel);
    var r, f := Run(m, args, self, true, fuel), FRun(ResolveMethod(m, ivars), LowerAll(args), LowerSelf(self), fuel);
    var clean := CleanMethod(m, ivars);
    if CellsRun(m, args, self, fuel).Val? {
      var w: World :| w.clean == clean && HeapRel(r.st, f.heap, w);
      assert WhyRel(r.why, f.why, w);
    }
    RelatedIsAlike(r, f, clean);
  }

  // ----- Blocks that a run ends with -----

  /** Two calls of blocks end alike for whoever sees no more than their answers and instance variables. */
  predicate CallsAlike(r: Result, f: FResult) {
    match r
    case Val(v, st) => f.FVal? && Same(v, f.v) && SameSelf(st.self, f.heap.self)
    case Stop(why, st) => f.FStop? && SameWhy(why, f.why) && SameSelf(st.self, f.heap.self)
    case Timeout => f.FTimeout?
    case _ => false
  }

  lemma CallAgreeIsAlike(r: Result, f: FResult, st: State, w: World, w': World)
    requires CallAgree(r, f, st, w, w')
    ensures CallsAlike(r, f)
  {
    hide CellOk, ValRel, Same, EndsAlike;
    match r
    case Val(v, s) =>
      RelIsSame(v, f.v, w');
      forall x | x in s.self ensures Same(s.self[x], f.heap.self[x]) { RelIsSame(s.self[x], f.heap.self[x], w'); }
    case Stop(why, s) =>
      assert EndsRelated(r, f, w'.clean);
      RelatedIsAlike(r, f, w'.clean);
      assert EndsAlike(r, f) ==> SameWhy(why, f.why) && SameSelf(s.self, f.heap.self) by { StopAlike(r, f); }
    case Timeout =>
  }

  lemma StopAlike(r: Result, f: FResult)
    requires r.Stop?
    ensures EndsAlike(r, f) ==> f.FStop? && SameWhy(r.why, f.why) && SameSelf(r.st.self, f.heap.self)
  {
    hide SameWhy, SameSelf;
  }

  /** The receiver of a message that a run of a clean method stops at still does what it should: called
      later, from a handler say, it ends as the block over lexical cells does. */
  lemma ReceiverStillAgrees(m: Method, ivars: set<string>, args: seq<Value>, self: map<string, Value>, fuel: nat,
                            vs: seq<Value>, later: nat)
    requires MethodWellFormed(m, ivars) && CleanMethod(m, ivars) && |args| == |m.params|
    requires AllPlain(args) && PlainSelf(self) && AllPlain(vs)
    requires Run(m, args, self, true, fuel).Stop? && Run(m, args, self, true, fuel).why.Dnu?
    ensures var r, f := Run(m, args, self, true, fuel), FRun(ResolveMethod(m, ivars), LowerAll(args), LowerSelf(self), fuel);
      f.FStop? && f.why.Dnu?
      && CallsAlike(Call(r.why.recv, vs, r.st, true, later), FCall(f.why.recv, LowerAll(vs), f.heap, later))
  {
    hide Run, FRun, Call, FCall, ResolveMethod, MethodWellFormed, CleanMethod, CallsAlike, HeapRel, ValRel, AllRel;
    ClosureConversionPreservesMeaning(m, ivars, args, self, fuel);
    var r, f := Run(m, args, self, true, fuel), FRun(ResolveMethod(m, ivars), LowerAll(args), LowerSelf(self), fuel);
    var w: World :| w.clean && WhyRel(r.why, f.why, w) && HeapRel(r.st, f.heap, w);
    LowerRel(vs, map[], w);
    var fs: seq<RValue> := LowerAll(vs);
    var w' := SimCall(r.why.recv, f.why.recv, vs, fs, r.st, f.heap, w, later);
    CallAgreeIsAlike(Call(r.why.recv, vs, r.st, true, later), FCall(f.why.recv, fs, f.heap, later), r.st, w, w');
  }

  /** Without the condition it does not: `| x | x := 7. [x] ifTrue: [1]` stops at a block that should
      answer 7 and answers nil, its own slot 1 that nothing ever set. */
  lemma OperandAnswersNil()
    ensures var r, f := Run(OPERAND_METHOD, [], map[], true, 2), FRun(ResolveMethod(OPERAND_METHOD, {}), LowerAll([]), LowerSelf(map[]), 2);
      && r.Stop? && r.why.Dnu? && Call(r.why.recv, [], r.st, true, 2) == Val(IntV(7), r.st)
      && f.FStop? && f.why.Dnu? && FCall(f.why.recv, [], f.heap, 2) == FVal(FNil, map[], f.heap)
      && !CallsAlike(Call(r.why.recv, [], r.st, true, 2), FCall(f.why.recv, [], f.heap, 2))
  {
    OperandReadsItsMethod();
    OperandOverCells();
    OperandOverSlots();
  }

  lemma OperandOverCells()
    ensures var r := Run(OPERAND_METHOD, [], map[], true, 2);
      r == Stop(Dnu(IfTrue, BlockV(OPERAND, map["x" := 0])), State([IntV(7)], map[]))
      && Call(r.why.recv, [], r.st, true, 2) == Val(IntV(7), r.st)
  {
    var env, st := map["x" := 0], State([IntV(7)], map[]);
    OperandStart();
    OperandStops(env, st);
    OperandCalled(env, st);
    hide Eval, Apply, Call, Number;
    assert EvalBody(More(OPERAND_SEND, NoNodes), env, st, true, 2) == Stop(Dnu(IfTrue, BlockV(OPERAND, env)), st);
  }

  lemma OperandStart()
    ensures var names: seq<string>, none: seq<Value> := [] + ["x"], [];
      Activate(map[], names, State([], map[])) == map["x" := 0] && none + Nils(1) == [NilV]
    ensures Eval(SEVEN, map["x" := 0], State([NilV], map[]), true, 2) == Val(IntV(7), State([IntV(7)], map[]))
  {
    var names: seq<string> := [] + ["x"];
    assert names == ["x"];
    NumberIs(names, 0);
    assert Number(names, 0) == map["x" := 0];
  }

  lemma OperandStops(env: Env, st: State)
    ensures Eval(OPERAND_SEND, env, st, true, 2) == Stop(Dnu(IfTrue, BlockV(OPERAND, env)), st)
  {
    OneBlock(BRANCH, env, st, 2);
    hide Call, While, Count, EvalArgs;
    assert Eval(OPERAND, env, st, true, 2) == Val(BlockV(OPERAND, env), st);
    assert Apply(IfTrue, BlockV(OPERAND, env), [BlockV(BRANCH, env)], st, true, false, 2) == Stop(Dnu(IfTrue, BlockV(OPERAND, env)), st);
  }

  lemma OperandCalled(env: Env, st: State)
    requires env == map["x" := 0] && st == State([IntV(7)], map[])
    ensures Call(BlockV(OPERAND, env), [], st, true, 2) == Val(IntV(7), st)
  {
    CallLiteral(OPERAND, env, st, 2);
    hide Call;
    assert Eval(Ident("x"), env, st, true, 1) == Val(IntV(7), st);
  }

  lemma OperandOverSlots()
    requires ResolveMethod(OPERAND_METHOD, {}) == RBlock(1, [], RCons(StoreLocal(1, PushInt(7)),
               RCons(Cond(IfTrue, true, MakeBlock(RBlock(0, [], RCons(LoadLocal(1), RNil))), RCons(PushInt(1), RNil)), RNil)))
    ensures var blk, h := RBlock(0, [], RCons(LoadLocal(1), RNil)), Heap([], map[]);
      && FRun(ResolveMethod(OPERAND_METHOD, {}), LowerAll([]), LowerSelf(map[]), 2) == FStop(Dnu(IfTrue, Closure(blk, NoDict)), h)
      && FCall(Closure(blk, NoDict), [], h, 2) == FVal(FNil, map[], h)
  {
    hide ResolveMethod;
    var blk := RBlock(0, [], RCons(LoadLocal(1), RNil));
    var h: RHeap := Heap([], map[]);
    assert LowerSelf<RBlock>(map[]) == map[];
    var slots: RSlots := ArgSlots([FSelf] + LowerAll([]));
    hide ArgSlots, LowerAll;
    OperandBody(blk, slots, h);
    OperandBlock(blk, h);
  }

  lemma OperandBody(blk: RBlock, slots: RSlots, h: RHeap)
    ensures ExecBody(RCons(StoreLocal(1, PushInt(7)), RCons(Cond(IfTrue, true, MakeBlock(blk), RCons(PushInt(1), RNil)), RNil)),
                     NoDict, slots, h, 2)
         == FStop(Dnu(IfTrue, Closure(blk, NoDict)), h)
  {
    hide ExecInline, ExecLoop, ExecCount;
    var cond := Cond(IfTrue, true, MakeBlock(blk), RCons(PushInt(1), RNil));
    var slots' := slots[1 := FInt(7)];
    assert Exec(StoreLocal(1, PushInt(7)), NoDict, slots, h, 2) == FVal(FInt(7), slots', h);
    assert Exec(cond, NoDict, slots', h, 2) == FStop(Dnu(IfTrue, Closure(blk, NoDict)), h);
    assert ExecBody(RCons(cond, RNil), NoDict, slots', h, 2) == FStop(Dnu(IfTrue, Closure(blk, NoDict)), h);
  }

  lemma OperandBlock(blk: RBlock, h: RHeap)
    requires blk == RBlock(0, [], RCons(LoadLocal(1), RNil))
    ensures FCall(Closure(blk, NoDict), [], h, 2) == FVal(FNil, map[], h)
  {
    var no: seq<RValue> := [];
    assert ArgSlots(no) == map[];
    assert Exec(LoadLocal(1), NoDict, map[], h, 1) == FVal(FNil, map[], h);
  }

  lemma MethodDistinct(m: Method, ivars: set<string>)
    requires MethodWellFormed(m, ivars)
    ensures Distinct(m.params + m.temps)
  {
  }

  lemma EmptyHeap(self: map<string, Value>, fself: map<string, RValue>, w: World)
    requires w.mu == map[] && w.shapes == [] && SelfRel(self, fself, w)
    ensures HeapRel(State([], self), Heap([], fself), w)
  {
  }

  lemma SameEnd(r: Result, f: FResult, p: Site, next: nat, st: State, slots: RSlots, w: World, w': World)
    requires p.sc.Within? && !r.Vals? && Agree(r, f, p, next, st, slots, w, w')
    ensures r.Val? ==> f.FVal? && StaysRelated(r.st, f.heap, w.clean)
    ensures !r.Val? ==> EndsRelated(r, f, w.clean)
  {
    hide CloRel, ValRel, CellOk, FrameRel, WhyRel;
    if r.Val? { assert w'.clean == w.clean && HeapRel(r.st, f.heap, w'); }
    if r.Stop? { assert w'.clean == w.clean && WhyRel(r.why, f.why, w') && HeapRel(r.st, f.heap, w'); }
  }
}
