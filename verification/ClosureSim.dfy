/** The simulation behind closure conversion, by induction on the fuel and on the code. */
module ClosureSim {
  import opened Syntax
  import opened Analysis
  import opened Operands
  import opened Resolve
  import opened Reference
  import opened Frames
  import opened ClosureWorld
  import opened ClosureProof

  ghost predicate CodeOk(n: Node, p: Site, clean: bool) {
    && WellFormed(n, Bound(p.sc), p.args, p.iv) && Usable(Direct(n, p.iv), Inner(n, p.iv), p.names, p.sc, p.iv)
    && (clean ==> Clean(n, PlainOf(p.sc), p.iv))
  }

  ghost predicate AllCodeOk(ns: Nodes, p: Site, clean: bool) {
    && AllWellFormed(ns, Bound(p.sc), p.args, p.iv) && Usable(DirectAll(ns, p.iv), InnerAll(ns, p.iv), p.names, p.sc, p.iv)
    && (clean ==> AllClean(ns, PlainOf(p.sc), p.iv))
  }

  ghost predicate Ready(p: Site, next: nat, st: State, slots: RSlots, h: RHeap, w: World) {
    p.sc.Within? && SiteOk(p, next) && Rel(p, st, slots, h, w)
  }

  lemma UsableSub(direct: set<string>, inner: set<string>, direct': set<string>, inner': set<string>, p: Site)
    requires Usable(direct, inner, p.names, p.sc, p.iv) && direct' <= direct && inner' <= inner
    ensures Usable(direct', inner', p.names, p.sc, p.iv)
  {
  }

  lemma PostSelf(p: Site, next: nat, st: State, slots: RSlots, h: RHeap, w: World)
    requires p.sc.Within? && Rel(p, st, slots, h, w)
    ensures Post(p, next, st, slots, w, st, slots, h, w)
  {
  }

  /** Later code starting where earlier code of the same frame ended. */
  lemma AgreeTrans(r: Result, f: FResult, p: Site, n0: nat, n1: nat, st0: State, s0: RSlots, w0: World,
                   st1: State, s1: RSlots, h1: RHeap, w1: World, w2: World)
    requires p.sc.Within? && n0 <= n1
    requires Post(p, n0, st0, s0, w0, st1, s1, h1, w1)
    requires Agree(r, f, p, n1, st1, s1, w1, w2)
    ensures Agree(r, f, p, n0, st0, s0, w0, w2)
  {
    hide Rel, CellsKept, SlotsKept, ValRel, AllRel, WhyRel, HeapRel;
    match r
    case Val(v, st2) => PostTrans(p, n0, n1, st0, s0, w0, st1, s1, h1, w1, st2, f.slots, f.heap, w2);
    case Vals(vs, st2) => PostTrans(p, n0, n1, st0, s0, w0, st1, s1, h1, w1, st2, f.slots, f.heap, w2);
    case _ =>
  }

  /** A frame is ready again after code that ended normally. */
  lemma ReadyAfter(p: Site, n0: nat, n1: nat, st0: State, s0: RSlots, h0: RHeap, w0: World,
                   st1: State, s1: RSlots, h1: RHeap, w1: World)
    requires Ready(p, n0, st0, s0, h0, w0) && n0 <= n1 && Post(p, n0, st0, s0, w0, st1, s1, h1, w1)
    ensures Ready(p, n1, st1, s1, h1, w1) && w1.clean == w0.clean
  {
    hide Rel, Sane;
  }

  lemma PostMono(p: Site, st0: State, s0: RSlots, w0: World, n: nat, st1: State, s1: RSlots, h1: RHeap, w1: World, v: Value, f: RValue)
    requires p.sc.Within? && Post(p, n, st0, s0, w0, st1, s1, h1, w1) && ValRel(v, f, w0)
    ensures ValRel(v, f, w1)
  {
    hide Rel, CellsKept, SlotsKept, ValRel;
    ValRelMono(v, f, w0, w1, |st0.cells|);
  }

  lemma PostClean(p: Site, n: nat, st0: State, s0: RSlots, w0: World, st1: State, s1: RSlots, h1: RHeap, w1: World)
    requires p.sc.Within? && Post(p, n, st0, s0, w0, st1, s1, h1, w1)
    ensures w1.clean == w0.clean
  {
    hide Rel, CellsKept, SlotsKept;
  }

  lemma OperandMono(v: Value, f: RValue, p: Site, n: nat, st0: State, s0: RSlots, w0: World, st1: State, s1: RSlots, h1: RHeap, w1: World)
    requires p.sc.Within? && Post(p, n, st0, s0, w0, st1, s1, h1, w1) && OperandRel(v, f, w0)
    ensures OperandRel(v, f, w1)
  {
    hide Rel, CellsKept, SlotsKept, ValRel;
    if ValRel(v, f, w0) { ValRelMono(v, f, w0, w1, |st0.cells|); }
  }

  // ----- Variables and block literals -----

  lemma SimIdent(n: Node, p: Site, next: nat, st: State, slots: RSlots, h: RHeap, w: World, fuel: nat)
    requires n.Ident? && Ready(p, next, st, slots, h, w) && CodeOk(n, p, w.clean)
    ensures Agree(Eval(n, p.env, st, true, fuel), Exec(Resolved(n, p.sc, p.iv, next).0, p.d, slots, h, fuel),
                  p, next, st, slots, w, w)
  {
    hide ValRel, Rel, Sane;
    UsableSub({n.name}, {}, {n.name}, {}, p);
    ReadVar(n.name, p, next, st, slots, h, w);
    PostSelf(p, next, st, slots, h, w);
  }

  /** Storing an evaluated value in the variable an assignment names. */
  lemma SimStore(x: string, v: Value, f: RValue, p: Site, next: nat, st: State, slots: RSlots, h: RHeap, w: World)
    requires Ready(p, next, st, slots, h, w) && ValRel(v, f, w)
    requires (x in Bound(p.sc) && x !in p.args) || (x !in Bound(p.sc) && x in p.iv)
    requires Usable({x}, {}, p.names, p.sc, p.iv)
    ensures match Where(p.sc, p.iv, x)
      case InDict => x in p.env && HasDict(h, p.d)
        && Post(p, next, st, slots, w, WriteCell(st, p.env[x], v), slots, WriteCaptured(h, p.d, x, f), w)
      case InSlot(s) => x in p.env && Post(p, next, st, slots, w, WriteCell(st, p.env[x], v), slots[s := f], h, w)
      case InSelf => x !in p.env
        && Post(p, next, st, slots, w, st.(self := st.self[x := v]), slots, h.(self := h.self[x := f]), w)
      case Undeclared => false
  {
    hide ValRel, Rel, Sane, Post;
    WhereIs(x, p, next);
    assert x in {x};
    if x in p.iv {
      WriteSelfVar(x, v, f, p, next, st, slots, h, w);
      assert p.env.Keys == Bound(p.sc) by { EnvNames(p, st, slots, h, w); }
    } else if IsCaptured(p.sc, x) {
      WriteDictVar(x, v, f, p, next, st, slots, h, w);
    } else {
      WriteSlotVar(x, v, f, p, next, st, slots, h, w);
    }
  }

  lemma EnvNames(p: Site, st: State, slots: RSlots, h: RHeap, w: World)
    requires Rel(p, st, slots, h, w)
    ensures p.env.Keys == Bound(p.sc)
  {
  }

  lemma SimBlockLiteral(n: Node, p: Site, next: nat, st: State, slots: RSlots, h: RHeap, w: World, fuel: nat)
    requires n.Block? && Ready(p, next, st, slots, h, w) && CodeOk(n, p, w.clean)
    ensures Agree(Eval(n, p.env, st, true, fuel), Exec(Resolved(n, p.sc, p.iv, next).0, p.d, slots, h, fuel),
                  p, next, st, slots, w, w)
  {
    hide HeapRel, ResolveBlock;
    PostSelf(p, next, st, slots, h, w);
    assert CloRel(n, p.env, ResolveBlock(n, p.sc, p.iv), p.d, p.sc, p.args, p.iv, w);
  }

  // ----- Calls -----

  /** What a call promises its caller, whose own frame it cannot see. */
  ghost predicate CallAgree(r: Result, f: FResult, st: State, w: World, w': World) {
    match r
    case Val(v, st') =>
      f.FVal? && ValRel(v, f.v, w') && HeapRel(st', f.heap, w') && Extends(w, w', |st.cells|)
      && |st.cells| <= |st'.cells|
      && (forall c | 0 <= c < |st.cells| && c !in w.mu :: st'.cells[c] == st.cells[c])
    case Vals(vs, st') => false
    case Stop(why, st') => f.FStop? && WhyRel(why, f.why, w') && HeapRel(st', f.heap, w') && w'.clean == w.clean
    case Timeout => f.FTimeout?
  }

  lemma CallTrans(r: Result, f: FResult, st0: State, w0: World, st1: State, w1: World, w2: World)
    requires CallAgree(r, f, st1, w1, w2) && Extends(w0, w1, |st0.cells|) && |st0.cells| <= |st1.cells|
    requires forall c | 0 <= c < |st0.cells| && c !in w0.mu :: st1.cells[c] == st0.cells[c]
    ensures CallAgree(r, f, st0, w0, w2)
  {
    hide ValRel, HeapRel, WhyRel;
    if r.Val? {
      ExtendsTrans(w0, w1, w2, |st0.cells|, |st1.cells|);
    }
  }

  /** A call seen from the frame that makes it. */
  lemma AfterCall(r: Result, f: FResult, p: Site, next: nat, st: State, slots: RSlots, h: RHeap, w: World, w': World)
    requires p.sc.Within? && Rel(p, st, slots, h, w) && CallAgree(r, f, st, w, w')
    ensures Agree(r, if f.FVal? then FVal(f.v, slots, f.heap) else f, p, next, st, slots, w, w')
  {
    hide ValRel, HeapRel, WhyRel;
    if r.Val? {
      FrameKept(p, st.cells, slots, w, r.st.cells, w');
    }
  }

  /** The scope a block opens meets the conditions its body is compiled under. */
  lemma BlockSiteOk(b: Node, sc: Scopes, args: set<string>, iv: set<string>, env: Env, d: Link, k: nat)
    requires b.Block? && WellFormed(b, Bound(sc), args, iv) && iv !! Bound(sc) && Sane(sc)
    ensures var names := Declared(b);
      var own := Elems(names);
      SiteOk(FrameSite(names, 0, Captured(b, iv), Elems(b.params), sc, env, Inner(b, iv),
                       (args - own) + Elems(b.params), iv - own, k, d), |names|)
  {
    var names := Declared(b);
    NumberKeys(names, 0);
    forall x | x in Elems(names) ensures Number(names, 0)[x] < |names| {
      var j := NumberAt(names, 0, 0, x);
    }
    forall x, y | x in Elems(names) && y in Elems(names) && x != y ensures Number(names, 0)[x] != Number(names, 0)[y] {
      var i := NumberAt(names, 0, 0, x);
      var j := NumberAt(names, 0, 0, y);
    }
  }

  lemma BlockBodyOk(b: Node, sc: Scopes, args: set<string>, iv: set<string>, env: Env, d: Link, k: nat, clean: bool)
    requires b.Block? && WellFormed(b, Bound(sc), args, iv) && (clean ==> Clean(b, PlainOf(sc), iv))
    requires forall x | x in Inner(b, iv) :: IsCaptured(sc, x)
    ensures var names := Declared(b);
      var own := Elems(names);
      AllCodeOk(b.body, FrameSite(names, 0, Captured(b, iv), Elems(b.params), sc, env, Inner(b, iv),
                                  (args - own) + Elems(b.params), iv - own, k, d), clean)
  {
    var names := Declared(b);
    var own := Elems(names);
    var p := FrameSite(names, 0, Captured(b, iv), Elems(b.params), sc, env, Inner(b, iv),
                       (args - own) + Elems(b.params), iv - own, k, d);
    NumberKeys(names, 0);
    assert Bound(p.sc) == Bound(sc) + own;
    assert PlainOf(p.sc) == PlainIn(b, PlainOf(sc), iv);
    forall x | x in DirectAll(b.body, iv - own)
      ensures x in p.iv || (x in p.names && (IsCaptured(p.sc, x) || InOwnSlot(p.sc, x)))
    {
      if x !in own && x !in p.iv { assert x in FreeDirect(b, iv); }
    }
    InnerAllAvoidsInstVars(b.body, iv - own);
    forall x | x in InnerAll(b.body, iv - own) ensures x in p.names && IsCaptured(p.sc, x) {
      if x !in own { assert x in FreeInner(b, iv); }
    }
  }

  lemma SimCall(v: Value, f: RValue, vs: seq<Value>, fs: seq<RValue>, st: State, h: RHeap, w: World, fuel: nat)
    returns (w': World)
    requires HeapRel(st, h, w) && ValRel(v, f, w) && AllRel(vs, fs, w)
    ensures CallAgree(Call(v, vs, st, true, fuel), FCall(f, fs, h, fuel), st, w, w')
    decreases fuel, 0, 1
  {
    hide HeapRel, AllRel, Exec, Eval, Rel;
    w' := w;
    assert |vs| == |fs| by { AllRelLength(vs, fs, w); }
    if v.BlockV? {
      var sc, args, iv :| CloRel(v.block, v.env, f.code, f.dict, sc, args, iv, w);
      if |vs| == |v.block.params| && fuel > 0 {
        w' := SimActivation(v, f, vs, fs, st, h, w, fuel, sc, args, iv);
      }
    }
  }

  lemma AllRelLength(vs: seq<Value>, fs: seq<RValue>, w: World)
    requires AllRel(vs, fs, w)
    ensures |vs| == |fs|
  {
  }

  /** The site of a block's activation. */
  function BlockSite(b: Node, sc: Scopes, args: set<string>, iv: set<string>, env: Env, k: nat, d: Link): Site
    requires b.Block?
  {
    var own := Elems(Declared(b));
    FrameSite(Declared(b), 0, Captured(b, iv), Elems(b.params), sc, env, Inner(b, iv),
              (args - own) + Elems(b.params), iv - own, k, d)
  }

  function CallState(b: Node, vs: seq<Value>, st: State): State
    requires b.Block? && |vs| == |b.params|
  {
    st.(cells := st.cells + (vs + Nils(|Declared(b)| - |vs|)))
  }

  lemma CallIs(b: Node, env: Env, vs: seq<Value>, st: State, fuel: nat)
    requires b.Block? && |vs| == |b.params| && fuel > 0
    ensures Call(BlockV(b, env), vs, st, true, fuel)
         == EvalBody(b.body, env + Number(Declared(b), |st.cells|), CallState(b, vs, st), true, fuel - 1)
  {
    hide EvalBody, Number;
    assert st.cells + vs + Nils(|b.temps|) == CallState(b, vs, st).cells;
  }

  lemma FCallIs(f: RValue, fs: seq<RValue>, h: RHeap, fuel: nat)
    requires f.Closure? && |fs| == f.code.argCount && fuel > 0
    ensures var (d', h') := OpenDict(h, f.dict, f.code.defines, ArgSlots(fs));
      FCall(f, fs, h, fuel) == ExecBody(f.code.body, d', ArgSlots(fs), h', fuel - 1)
  {
    hide ExecBody, OpenDict, ArgSlots;
  }

  lemma SimActivation(v: Value, f: RValue, vs: seq<Value>, fs: seq<RValue>, st: State, h: RHeap, w: World, fuel: nat,
                      sc: Scopes, args: set<string>, iv: set<string>)
    returns (w': World)
    requires v.BlockV? && f.Closure? && CloRel(v.block, v.env, f.code, f.dict, sc, args, iv, w)
    requires HeapRel(st, h, w) && AllRel(vs, fs, w)
    requires |vs| == |fs| == |v.block.params| && fuel > 0
    ensures CallAgree(Call(v, vs, st, true, fuel), FCall(f, fs, h, fuel), st, w, w')
    decreases fuel, 0, 0
  {
    hide HeapRel, AllRel, ExecBody, EvalBody, Owner, DictOk, SiteOk, AllCodeOk, Distinct, Call, FCall,
         OpenDict, ArgSlots, Elems, Captured, Inner, WellFormed, Bound, Sane, Defines, Nils, ResolveAll;
    var b := v.block;
    var names := Declared(b);
    var slots := ArgSlots(fs);
    var (d', h') := OpenDict(h, f.dict, f.code.defines, slots);
    var p := BlockSite(b, sc, args, iv, v.env, |st.cells|, d');
    var st' := CallState(b, vs, st);
    var w1 := ActivationFrame(b, v.env, f, vs, fs, st, h, w, sc, args, iv);
    BlockSiteOk(b, sc, args, iv, v.env, d', |st.cells|);
    BlockBodyOk(b, sc, args, iv, v.env, d', |st.cells|, w.clean);
    w' := SimBody(b.body, p, |names|, st', slots, h', w1, fuel - 1);
    FrameHidden(p, names, 0, |st.cells|, sc, st, st', w, w1);
    CallIs(b, v.env, vs, st, fuel);
    FCallIs(f, fs, h, fuel);
    assert f.code.body == ResolveAll(b.body, p.sc, p.iv, |names|).0;
    CallFromBody(p, |names|, st, w, st', slots, w1, Call(v, vs, st, true, fuel), FCall(f, fs, h, fuel), w');
  }

  lemma ActivationFrame(b: Node, env: Env, f: RValue, vs: seq<Value>, fs: seq<RValue>, st: State, h: RHeap, w: World,
                        sc: Scopes, args: set<string>, iv: set<string>)
    returns (w1: World)
    requires f.Closure? && CloRel(b, env, f.code, f.dict, sc, args, iv, w)
    requires HeapRel(st, h, w) && AllRel(vs, fs, w) && |vs| == |fs| == |b.params|
    ensures var (d', h') := OpenDict(h, f.dict, f.code.defines, ArgSlots(fs));
      Extends(w, w1, |st.cells|)
      && Rel(BlockSite(b, sc, args, iv, env, |st.cells|, d'), CallState(b, vs, st), ArgSlots(fs), h', w1)
  {
    hide HeapRel, AllRel, Owner, DictOk, Distinct, OpenDict, ArgSlots, Bound, Sane, Nils, ResolveAll, Rel, Extends, ValRel;
    var names := Declared(b);
    var own := Elems(names);
    assert Distinct(names) && |vs| <= |names|;
    assert Captured(b, iv) <= own;
    assert forall x | x in Inner(b, iv) :: x !in own;
    w1 := OpenFrame(names, Captured(b, iv), Elems(b.params), sc, env, f.dict, Inner(b, iv),
                    (args - own) + Elems(b.params), iv - own, [], vs, fs, st, h, w);
    assert [] + fs == fs;
  }

  /** The private cells of an activation are its own. */
  lemma FrameHidden(p: Site, names: seq<string>, first: nat, k: nat, outer: Scopes, st: State, st': State, w: World, w1: World)
    requires p.sc.Within? && p.sc.inner.slots == Number(names, first)
    requires exists envOut: Env :: p.env == envOut + Number(names, k)
    ensures forall c: nat | OwnCell(p, c) :: c >= k
  {
    forall c: nat | OwnCell(p, c) ensures c >= k {
      var x :| x in p.names && InOwnSlot(p.sc, x) && x in p.env && p.env[x] == c;
      NumberKeys(names, k);
      NumberKeys(names, first);
      var j := NumberAt(names, k, 0, x);
    }
  }

  lemma CallFromBody(p: Site, next: nat, st: State, w: World, st1: State, slots: RSlots, w1: World,
                     r: Result, f: FResult, w': World)
    requires p.sc.Within? && Extends(w, w1, |st.cells|) && st.cells <= st1.cells
    requires !r.Vals? && Agree(r, f, p, next, st1, slots, w1, w')
    requires forall c: nat | OwnCell(p, c) :: c >= |st.cells|
    ensures CallAgree(r, f, st, w, w')
  {
    hide ValRel, HeapRel, WhyRel, FrameRel, OwnCell;
    if r.Val? {
      ExtendsTrans(w, w1, w', |st.cells|, |st1.cells|);
    }
  }

  lemma SimBody(ns: Nodes, p: Site, next: nat, st: State, slots: RSlots, h: RHeap, w: World, fuel: nat)
    returns (w': World)
    requires Ready(p, next, st, slots, h, w) && AllCodeOk(ns, p, w.clean)
    ensures Agree(EvalBody(ns, p.env, st, true, fuel), ExecBody(ResolveAll(ns, p.sc, p.iv, next).0, p.d, slots, h, fuel),
                  p, next, st, slots, w, w')
    decreases fuel, 2, ns, 0
  {
    hide ValRel, Rel, Exec, Eval, SiteOk, Resolved;
    w' := w;
    match ns
    case NoNodes =>
      PostSelf(p, next, st, slots, h, w);
      NilRel(w);
    case More(n, t) =>
      HeadOk(ns, p, w.clean);
      w' := SimNode(n, p, next, st, slots, h, w, fuel);
      var r := Eval(n, p.env, st, true, fuel);
      if r.Val? && t.More? {
        var (e, n1) := Resolved(n, p.sc, p.iv, next);
        var f := Exec(e, p.d, slots, h, fuel);
        ReadyAfter(p, next, n1, st, slots, h, w, r.st, f.slots, f.heap, w');
        var w1 := w';
        w' := SimBody(t, p, n1, r.st, f.slots, f.heap, w1, fuel);
        AgreeTrans(EvalBody(t, p.env, r.st, true, fuel), ExecBody(ResolveAll(t, p.sc, p.iv, n1).0, p.d, f.slots, f.heap, fuel),
                   p, next, n1, st, slots, w, r.st, f.slots, f.heap, w1, w');
      }
  }

  lemma HeadOk(ns: Nodes, p: Site, clean: bool)
    requires ns.More? && AllCodeOk(ns, p, clean)
    ensures CodeOk(ns.head, p, clean) && AllCodeOk(ns.tail, p, clean)
  {
  }

  /** Both sides of an argument list, by its head. */
  lemma ArgsAre(n: Node, t: Nodes, p: Site, next: nat, st: State, slots: RSlots, h: RHeap, fuel: nat)
    requires p.sc.Within?
    ensures var r, x := Eval(n, p.env, st, true, fuel), EvalArgs(More(n, t), p.env, st, true, fuel);
      && (!r.Val? ==> x == r)
      && (r.Val? ==> var rest := EvalArgs(t, p.env, r.st, true, fuel);
            x == if rest.Vals? then Vals([r.v] + rest.vs, rest.st) else rest)
    ensures var (e, n1) := Resolved(n, p.sc, p.iv, next);
      var f, y := Exec(e, p.d, slots, h, fuel), ExecArgs(ResolveAll(More(n, t), p.sc, p.iv, next).0, p.d, slots, h, fuel);
      && (!f.FVal? ==> y == f)
      && (f.FVal? ==> var rest := ExecArgs(ResolveAll(t, p.sc, p.iv, n1).0, p.d, f.slots, f.heap, fuel);
            y == if rest.FVals? then FVals([f.v] + rest.vs, rest.slots, rest.heap) else rest)
  {
    hide Eval, Exec, Resolved;
  }

  lemma SimArgs(ns: Nodes, p: Site, next: nat, st: State, slots: RSlots, h: RHeap, w: World, fuel: nat)
    returns (w': World)
    requires Ready(p, next, st, slots, h, w) && AllCodeOk(ns, p, w.clean)
    ensures Agree(EvalArgs(ns, p.env, st, true, fuel), ExecArgs(ResolveAll(ns, p.sc, p.iv, next).0, p.d, slots, h, fuel),
                  p, next, st, slots, w, w')
    decreases fuel, 2, ns, 0
  {
    hide ValRel, Rel, Exec, Eval, SiteOk, Resolved;
    w' := w;
    match ns
    case NoNodes => PostSelf(p, next, st, slots, h, w);
    case More(n, t) =>
      HeadOk(ns, p, w.clean);
      ArgsAre(n, t, p, next, st, slots, h, fuel);
      hide EvalArgs, ExecArgs, ResolveAll;
      var w1 := SimNode(n, p, next, st, slots, h, w, fuel);
      w' := w1;
      var r := Eval(n, p.env, st, true, fuel);
      if r.Val? {
        var (e, n1) := Resolved(n, p.sc, p.iv, next);
        var f := Exec(e, p.d, slots, h, fuel);
        ReadyAfter(p, next, n1, st, slots, h, w, r.st, f.slots, f.heap, w1);
        w' := SimArgs(t, p, n1, r.st, f.slots, f.heap, w1, fuel);
        var rest := EvalArgs(t, p.env, r.st, true, fuel);
        var frest := ExecArgs(ResolveAll(t, p.sc, p.iv, n1).0, p.d, f.slots, f.heap, fuel);
        AgreeTrans(rest, frest, p, next, n1, st, slots, w, r.st, f.slots, f.heap, w1, w');
        if rest.Vals? {
          PostMono(p, r.st, f.slots, w1, n1, rest.st, frest.slots, frest.heap, w', r.v, f.v);
        }
      }
  }

  lemma SimNode(n: Node, p: Site, next: nat, st: State, slots: RSlots, h: RHeap, w: World, fuel: nat)
    returns (w': World)
    requires Ready(p, next, st, slots, h, w) && CodeOk(n, p, w.clean)
    ensures Agree(Eval(n, p.env, st, true, fuel), Exec(Resolved(n, p.sc, p.iv, next).0, p.d, slots, h, fuel),
                  p, next, st, slots, w, w')
    decreases fuel, 2, n, 3
  {
    hide ValRel, Rel, SiteOk;
    w' := w;
    match n
    case Ident(_) => SimIdent(n, p, next, st, slots, h, w, fuel);
    case Assignment(_, _) => w' := SimAssignment(n, p, next, st, slots, h, w, fuel);
    case Binary(_, _, _) => w' := SimBinary(n, p, next, st, slots, h, w, fuel);
    case Send(_, _, _) => w' := SimSend(n, p, next, st, slots, h, w, fuel);
    case Block(_, _, _) => SimBlockLiteral(n, p, next, st, slots, h, w, fuel);
    case Return(_) => w' := SimReturn(n, p, next, st, slots, h, w, fuel);
    case _ => SimLiteralValue(n, p, next, st, slots, h, w, fuel);
  }

  lemma SimLiteralValue(n: Node, p: Site, next: nat, st: State, slots: RSlots, h: RHeap, w: World, fuel: nat)
    requires n.IntLit? || n.BoolLit? || n.NilLit? || n.SelfRef?
    requires Ready(p, next, st, slots, h, w)
    ensures Agree(Eval(n, p.env, st, true, fuel), Exec(Resolved(n, p.sc, p.iv, next).0, p.d, slots, h, fuel),
                  p, next, st, slots, w, w)
  {
    hide Rel;
    PostSelf(p, next, st, slots, h, w);
  }

  lemma SimAssignment(n: Node, p: Site, next: nat, st: State, slots: RSlots, h: RHeap, w: World, fuel: nat)
    returns (w': World)
    requires n.Assignment? && Ready(p, next, st, slots, h, w) && CodeOk(n, p, w.clean)
    ensures Agree(Eval(n, p.env, st, true, fuel), Exec(Resolved(n, p.sc, p.iv, next).0, p.d, slots, h, fuel),
                  p, next, st, slots, w, w')
    decreases fuel, 2, n, 1
  {
    hide ValRel, Rel, SiteOk, Post, HasDict, WriteCell, WriteCaptured;
    UsableSub({n.name} + Direct(n.value, p.iv), Inner(n.value, p.iv), Direct(n.value, p.iv), Inner(n.value, p.iv), p);
    UsableSub({n.name} + Direct(n.value, p.iv), Inner(n.value, p.iv), {n.name}, {}, p);
    w' := SimNode(n.value, p, next, st, slots, h, w, fuel);
    var r := Eval(n.value, p.env, st, true, fuel);
    if r.Val? {
      var (e, n1) := Resolved(n.value, p.sc, p.iv, next);
      var f := Exec(e, p.d, slots, h, fuel);
      ReadyAfter(p, next, n1, st, slots, h, w, r.st, f.slots, f.heap, w');
      SimStore(n.name, r.v, f.v, p, n1, r.st, f.slots, f.heap, w');
      AgreeTrans(Eval(n, p.env, st, true, fuel), Exec(Resolved(n, p.sc, p.iv, next).0, p.d, slots, h, fuel),
                 p, next, n1, st, slots, w, r.st, f.slots, f.heap, w', w');
    }
  }

  /** Both sides of an operator, by its operands. */
  lemma BinaryIs(n: Node, p: Site, next: nat, st: State, slots: RSlots, h: RHeap, fuel: nat)
    requires p.sc.Within? && n.Binary?
    ensures var a, x := Eval(n.left, p.env, st, true, fuel), Eval(n, p.env, st, true, fuel);
      && (!a.Val? ==> x == a)
      && (a.Val? ==> var b := Eval(n.right, p.env, a.st, true, fuel);
            x == if !b.Val? then b
                 else if a.v.IntV? && b.v.IntV? then Val(Compute(n.op, a.v.n, b.v.n), b.st) else Stop(NotInteger(a.v, b.v), b.st))
    ensures var (e, n1) := Resolved(n.left, p.sc, p.iv, next);
      var a, x := Exec(e, p.d, slots, h, fuel), Exec(Resolved(n, p.sc, p.iv, next).0, p.d, slots, h, fuel);
      && (!a.FVal? ==> x == a)
      && (a.FVal? ==> var b := Exec(Resolved(n.right, p.sc, p.iv, n1).0, p.d, a.slots, a.heap, fuel);
            x == if !b.FVal? then b
                 else if a.v.FInt? && b.v.FInt? then FVal(FCompute(n.op, a.v.n, b.v.n), b.slots, b.heap)
                 else FStop(NotInteger(a.v, b.v), b.heap))
  {
  }

  lemma SimBinary(n: Node, p: Site, next: nat, st: State, slots: RSlots, h: RHeap, w: World, fuel: nat)
    returns (w': World)
    requires n.Binary? && Ready(p, next, st, slots, h, w) && CodeOk(n, p, w.clean)
    ensures Agree(Eval(n, p.env, st, true, fuel), Exec(Resolved(n, p.sc, p.iv, next).0, p.d, slots, h, fuel),
                  p, next, st, slots, w, w')
    decreases fuel, 2, n, 1
  {
    hide Rel, SiteOk, Post, CloRel, Compute, FCompute;
    var w1 := SimNode(n.left, p, next, st, slots, h, w, fuel);
    w' := w1;
    BinaryIs(n, p, next, st, slots, h, fuel);
    assert CodeOk(n.right, p, w.clean);
    hide Eval, Exec, CodeOk;
    var a := Eval(n.left, p.env, st, true, fuel);
    if a.Val? {
      var (le, n1) := Resolved(n.left, p.sc, p.iv, next);
      var fa := Exec(le, p.d, slots, h, fuel);
      ReadyAfter(p, next, n1, st, slots, h, w, a.st, fa.slots, fa.heap, w1);
      w' := SimNode(n.right, p, n1, a.st, fa.slots, fa.heap, w1, fuel);
      AgreeTrans(Eval(n.right, p.env, a.st, true, fuel), Exec(Resolved(n.right, p.sc, p.iv, n1).0, p.d, fa.slots, fa.heap, fuel),
                 p, next, n1, st, slots, w, a.st, fa.slots, fa.heap, w1, w');
      var b := Eval(n.right, p.env, a.st, true, fuel);
      if b.Val? {
        var fb := Exec(Resolved(n.right, p.sc, p.iv, n1).0, p.d, fa.slots, fa.heap, fuel);
        PostMono(p, a.st, fa.slots, w1, n1, b.st, fb.slots, fb.heap, w', a.v, fa.v);
        PostClean(p, next, st, slots, w, b.st, fb.slots, fb.heap, w');
        SimOperands(a.v, fa.v, b, fb, n.op, p, next, st, slots, w, w');
      }
    }
  }

  lemma SimOperands(a: Value, fa: RValue, b: Result, fb: FResult, op: BinOp, p: Site, next: nat,
                    st: State, slots: RSlots, w: World, w': World)
    requires p.sc.Within? && Agree(b, fb, p, next, st, slots, w, w') && b.Val? && ValRel(a, fa, w')
    ensures a.IntV? == fa.FInt? && b.v.IntV? == fb.v.FInt?
    ensures a.IntV? && b.v.IntV? ==>
      (a.n == fa.n && b.v.n == fb.v.n && ValRel(Compute(op, a.n, b.v.n), FCompute(op, fa.n, fb.v.n), w'))
    ensures HeapRel(b.st, fb.heap, w') && OperandRel(a, fa, w') && OperandRel(b.v, fb.v, w')
  {
    hide CloRel, HeapRel;
  }

  lemma SimReturn(n: Node, p: Site, next: nat, st: State, slots: RSlots, h: RHeap, w: World, fuel: nat)
    returns (w': World)
    requires n.Return? && Ready(p, next, st, slots, h, w) && CodeOk(n, p, w.clean)
    ensures Agree(Eval(n, p.env, st, true, fuel), Exec(Resolved(n, p.sc, p.iv, next).0, p.d, slots, h, fuel),
                  p, next, st, slots, w, w')
    decreases fuel, 2, n, 1
  {
    hide ValRel, HeapRel, FrameRel, SiteOk;
    w' := SimNode(n.value, p, next, st, slots, h, w, fuel);
  }

  // ----- Sends -----

  lemma SimSend(n: Node, p: Site, next: nat, st: State, slots: RSlots, h: RHeap, w: World, fuel: nat)
    returns (w': World)
    requires n.Send? && Ready(p, next, st, slots, h, w) && CodeOk(n, p, w.clean)
    ensures Agree(Eval(n, p.env, st, true, fuel), Exec(Resolved(n, p.sc, p.iv, next).0, p.d, slots, h, fuel),
                  p, next, st, slots, w, w')
    decreases fuel, 2, n, 2
  {
    hide ValRel, Rel, SiteOk, Agree;
    if Inlined(n, p.iv) {
      match InlineShapeOf(n)
      case InlineIf => w' := SimIf(n, p, next, st, slots, h, w, fuel);
      case InlineIfElse => w' := SimIfElse(n, p, next, st, slots, h, w, fuel);
      case InlineWhile => w' := SimWhileSend(n, p, next, st, slots, h, w, fuel);
      case InlineToDo => w' := SimToDo(n, p, next, st, slots, h, w, fuel);
    } else {
      w' := SimRealSend(n, p, next, st, slots, h, w, fuel);
    }
  }

  lemma SimRealSend(n: Node, p: Site, next: nat, st: State, slots: RSlots, h: RHeap, w: World, fuel: nat)
    returns (w': World)
    requires n.Send? && !Inlined(n, p.iv) && Ready(p, next, st, slots, h, w) && CodeOk(n, p, w.clean)
    ensures Agree(Eval(n, p.env, st, true, fuel), Exec(Resolved(n, p.sc, p.iv, next).0, p.d, slots, h, fuel),
                  p, next, st, slots, w, w')
    decreases fuel, 2, n, 1
  {
    hide ValRel, HeapRel, FrameRel, SiteOk, CellsKept, SlotsKept, Apply, FApply;
    w' := SimNode(n.recv, p, next, st, slots, h, w, fuel);
    var a := Eval(n.recv, p.env, st, true, fuel);
    if a.Val? {
      var (re, n1) := Resolved(n.recv, p.sc, p.iv, next);
      var fa := Exec(re, p.d, slots, h, fuel);
      ReadyAfter(p, next, n1, st, slots, h, w, a.st, fa.slots, fa.heap, w');
      var w1 := w';
      w' := SimArgs(n.args, p, n1, a.st, fa.slots, fa.heap, w1, fuel);
      var b := EvalArgs(n.args, p.env, a.st, true, fuel);
      var (ae, n2) := ResolveAll(n.args, p.sc, p.iv, n1);
      var fb := ExecArgs(ae, p.d, fa.slots, fa.heap, fuel);
      AgreeTrans(b, fb, p, next, n1, st, slots, w, a.st, fa.slots, fa.heap, w1, w');
      if b.Vals? {
        var w2 := w';
        PostMono(p, a.st, fa.slots, w1, n1, b.st, fb.slots, fb.heap, w2, a.v, fa.v);
        w' := SimApply(n.sel, a.v, fa.v, b.vs, fb.vs, b.st, fb.heap, w2, fuel);
        var r := Apply(n.sel, a.v, b.vs, b.st, true, false, fuel);
        var f := FApply(n.sel, fa.v, fb.vs, fb.heap, fuel);
        AfterCall(r, f, p, next, b.st, fb.slots, fb.heap, w2, w');
        AgreeTrans(r, if f.FVal? then FVal(f.v, fb.slots, f.heap) else f, p, next, next, st, slots, w, b.st, fb.slots, fb.heap, w2, w');
      }
    }
  }

  lemma BlockRel(v: Value, f: RValue, w: World)
    requires ValRel(v, f, w)
    ensures v.BlockV? == f.Closure? && v.BoolV? == f.FBool? && v.IntV? == f.FInt?
    ensures v.BoolV? ==> v.b == f.b
    ensures v.IntV? ==> v.n == f.n
  {
    hide CloRel;
  }

  lemma SimApply(sel: Selector, v: Value, f: RValue, vs: seq<Value>, fs: seq<RValue>, st: State, h: RHeap, w: World, fuel: nat)
    returns (w': World)
    requires HeapRel(st, h, w) && ValRel(v, f, w) && AllRel(vs, fs, w)
    ensures CallAgree(Apply(sel, v, vs, st, true, false, fuel), FApply(sel, f, fs, h, fuel), st, w, w')
    decreases fuel, 1
  {
    hide CloRel, HeapRel, Call, FCall, While, FWhile, Count, FCount;
    w' := w;
    assert AllRel([], [], w);
    match (sel, v)
    case (Value(k), BlockV(_, _)) =>
      if k == |vs| <= 4 { w' := SimCall(v, f, vs, fs, st, h, w, fuel); }
    case (IfTrue, BoolV(b)) =>
      if |vs| == 1 && b { w' := SimCall(vs[0], fs[0], [], [], st, h, w, fuel); }
    case (IfFalse, BoolV(b)) =>
      if |vs| == 1 && !b { w' := SimCall(vs[0], fs[0], [], [], st, h, w, fuel); }
    case (IfTrueIfFalse, BoolV(b)) =>
      if |vs| == 2 { var i := if b then 0 else 1; w' := SimCall(vs[i], fs[i], [], [], st, h, w, fuel); }
    case (IfFalseIfTrue, BoolV(b)) =>
      if |vs| == 2 { var i := if b then 1 else 0; w' := SimCall(vs[i], fs[i], [], [], st, h, w, fuel); }
    case (WhileTrue, BlockV(_, _)) =>
      if |vs| == 1 { w' := SimWhile(sel, v, f, vs[0], fs[0], st, h, w, fuel); }
    case (WhileFalse, BlockV(_, _)) =>
      if |vs| == 1 { w' := SimWhile(sel, v, f, vs[0], fs[0], st, h, w, fuel); }
    case (ToDo, _) =>
      BlockRel(v, f, w);
      if |vs| == 2 {
        BlockRel(vs[0], fs[0], w);
        if v.IntV? && vs[0].IntV? {
          w' := SimCount(v.n, v.n, vs[0].n, vs[1], fs[1], st, h, w, fuel);
        }
      }
    case _ =>
  }

  lemma SimWhile(sel: Selector, c: Value, fc: RValue, b: Value, fb: RValue, st: State, h: RHeap, w: World, fuel: nat)
    returns (w': World)
    requires HeapRel(st, h, w) && ValRel(c, fc, w) && ValRel(b, fb, w)
    ensures CallAgree(While(sel, c, b, st, true, false, fuel), FWhile(sel, fc, fb, h, fuel), st, w, w')
    decreases fuel, 0
  {
    hide CloRel, HeapRel, Call, FCall, ValRel;
    w' := w;
    if fuel > 0 {
      assert AllRel([], [], w);
      w' := SimCall(c, fc, [], [], st, h, w, fuel - 1);
      var r := Call(c, [], st, true, fuel - 1);
      var f := FCall(fc, [], h, fuel - 1);
      if r.Val? {
        BlockRel(r.v, f.v, w');
        var w1 := w';
        NilRel(w1);
        if (r.v == BoolV(true)) == (sel == WhileTrue) {
          ValRelMono(b, fb, w, w1, |st.cells|);
          ValRelMono(c, fc, w, w1, |st.cells|);
          w' := SimCall(b, fb, [], [], r.st, f.heap, w1, fuel - 1);
          var r2 := Call(b, [], r.st, true, fuel - 1);
          var f2 := FCall(fb, [], f.heap, fuel - 1);
          CallTrans(r2, f2, st, w, r.st, w1, w');
          if r2.Val? {
            var w2 := w';
            ValRelMono(b, fb, w, w2, |st.cells|);
            ValRelMono(c, fc, w, w2, |st.cells|);
            w' := SimWhile(sel, c, fc, b, fb, r2.st, f2.heap, w2, fuel - 1);
            CallTrans(While(sel, c, b, r2.st, true, false, fuel - 1), FWhile(sel, fc, fb, f2.heap, fuel - 1), st, w, r2.st, w2, w');
          }
        }
      }
    }
  }

  lemma SimCount(start: int, i: int, stop: int, b: Value, fb: RValue, st: State, h: RHeap, w: World, fuel: nat)
    returns (w': World)
    requires HeapRel(st, h, w) && ValRel(b, fb, w)
    ensures CallAgree(Count(start, i, stop, b, st, true, fuel), FCount(start, i, stop, fb, h, fuel), st, w, w')
    decreases fuel, 0
  {
    hide CloRel, HeapRel, Call, FCall;
    w' := w;
    if i <= stop && fuel > 0 {
      assert AllRel([IntV(i)], [FInt(i)], w);
      w' := SimCall(b, fb, [IntV(i)], [FInt(i)], st, h, w, fuel - 1);
      var r := Call(b, [IntV(i)], st, true, fuel - 1);
      var f := FCall(fb, [FInt(i)], h, fuel - 1);
      if r.Val? {
        var w1 := w';
        ValRelMono(b, fb, w, w1, |st.cells|);
        w' := SimCount(start, i + 1, stop, b, fb, r.st, f.heap, w1, fuel - 1);
        CallTrans(Count(start, i + 1, stop, b, r.st, true, fuel - 1), FCount(start, i + 1, stop, fb, f.heap, fuel - 1),
                  st, w, r.st, w1, w');
      }
    }
  }

  // ----- Sends compiled in line -----

  lemma CallLiteral(b: Node, env: Env, st: State, fuel: nat)
    requires IsInlineableBlock(b)
    ensures Call(BlockV(b, env), [], st, true, fuel)
         == if fuel == 0 then Timeout else EvalBody(b.body, env, st, true, fuel - 1)
  {
    hide EvalBody;
    ActivateNone(env, st);
    assert Declared(b) == [];
  }

  /** The body of a literal block compiled in line uses names of the enclosing scope only. */
  lemma LiteralOk(b: Node, p: Site, clean: bool)
    requires IsInlineableBlock(b) && (clean ==> AllClean(b.body, PlainOf(p.sc), p.iv))
    requires WellFormed(b, Bound(p.sc), p.args, p.iv)
    requires Usable(FreeDirect(b, p.iv), FreeInner(b, p.iv), p.names, p.sc, p.iv)
    ensures AllCodeOk(b.body, p, clean)
  {
    assert Declared(b) == [] && Elems(Declared(b)) == {};
    assert p.iv - {} == p.iv && Bound(p.sc) + {} == Bound(p.sc) && (p.args - {}) + {} == p.args;
    assert b.params + b.temps == [] && Elems(b.params) == {};
    InnerAllAvoidsInstVars(b.body, p.iv);
  }

  lemma SimLiteral(b: Node, p: Site, next: nat, st: State, slots: RSlots, h: RHeap, w: World, fuel: nat)
    returns (w': World)
    requires IsInlineableBlock(b) && AllCodeOk(b.body, p, w.clean) && Ready(p, next, st, slots, h, w)
    ensures Agree(Call(BlockV(b, p.env), [], st, true, fuel),
                  ExecInline(ResolveAll(b.body, p.sc, p.iv, next).0, p.d, slots, h, fuel), p, next, st, slots, w, w')
    decreases fuel, 1
  {
    hide Agree, AllCodeOk, Rel, Call;
    w' := w;
    CallLiteral(b, p.env, st, fuel);
    if fuel > 0 {
      w' := SimBody(b.body, p, next, st, slots, h, w, fuel - 1);
    } else {
      AgreeTimeout(p, next, st, slots, w);
    }
  }

  lemma AgreeTimeout(p: Site, next: nat, st: State, slots: RSlots, w: World)
    requires p.sc.Within?
    ensures Agree(Timeout, FTimeout, p, next, st, slots, w, w)
  {
  }

  /** The receiver of an inlined conditional: a value related to its resolved code's value, or a
      block literal, which is no Boolean and no Integer. */
  lemma SimReceiver(n: Node, p: Site, next: nat, st: State, slots: RSlots, h: RHeap, w: World, fuel: nat)
    returns (w': World)
    requires Ready(p, next, st, slots, h, w) && WellFormed(n, Bound(p.sc), p.args, p.iv)
    requires Usable(SplitDirect(n, p.iv), SplitInner(n, p.iv), p.names, p.sc, p.iv)
    requires w.clean ==> CleanOperand(n, PlainOf(p.sc), p.iv)
    ensures var r := Eval(n, p.env, st, true, fuel);
      var f := Exec(Resolved(n, p.sc, p.iv, next).0, p.d, slots, h, fuel);
      (!n.Block? ==> Agree(r, f, p, next, st, slots, w, w'))
      && (r.Val? ==> f.FVal? && Post(p, next, st, slots, w, r.st, f.slots, f.heap, w') && OperandRel(r.v, f.v, w')
                     && r.v.BoolV? == f.v.FBool? && (r.v.BoolV? ==> r.v.b == f.v.b)
                     && r.v.IntV? == f.v.FInt? && (r.v.IntV? ==> r.v.n == f.v.n))
      && (!r.Val? ==> Agree(r, f, p, next, st, slots, w, w'))
      && (n.Block? ==> r.Val? && !f.v.FInt? && !f.v.FBool?)
    decreases fuel, 2, n, 4
  {
    hide Rel, SiteOk, ResolveBlock, ValRel;
    if n.Block? {
      w' := w;
      PostSelf(p, next, st, slots, h, w);
      if w.clean { CleanOperandRel(n, p, next, st, slots, h, w); }
    } else {
      w' := SimNode(n, p, next, st, slots, h, w, fuel);
      var r := Eval(n, p.env, st, true, fuel);
      if r.Val? {
        BlockRel(r.v, Exec(Resolved(n, p.sc, p.iv, next).0, p.d, slots, h, fuel).v, w');
      }
    }
  }

  /** A clean block literal is a closure related to its block, wherever it stands. */
  lemma CleanOperandRel(n: Node, p: Site, next: nat, st: State, slots: RSlots, h: RHeap, w: World)
    requires n.Block? && Ready(p, next, st, slots, h, w) && WellFormed(n, Bound(p.sc), p.args, p.iv)
    requires Usable(SplitDirect(n, p.iv), SplitInner(n, p.iv), p.names, p.sc, p.iv) && CleanOperand(n, PlainOf(p.sc), p.iv)
    ensures ValRel(BlockV(n, p.env), Closure(ResolveBlock(n, p.sc, p.iv), p.d), w)
  {
    hide HeapRel, ResolveBlock, DictOk, SlotOk, WellFormed;
    assert SplitDirect(n, p.iv) == FreeDirect(n, p.iv) && SplitInner(n, p.iv) == FreeInner(n, p.iv);
    assert Inner(n, p.iv) == FreeDirect(n, p.iv) + FreeInner(n, p.iv);
    forall x | x in Inner(n, p.iv) ensures IsCaptured(p.sc, x) && DictOk(x, p.env, p.d, w) {
      if x in FreeDirect(n, p.iv) { assert x !in PlainOf(p.sc) && x !in p.iv; }
    }
    assert CloRel(n, p.env, ResolveBlock(n, p.sc, p.iv), p.d, p.sc, p.args, p.iv, w);
  }

  /** Both sides of a one-armed conditional, by its receiver. */
  lemma IfIs(n: Node, p: Site, next: nat, st: State, slots: RSlots, h: RHeap, fuel: nat)
    requires p.sc.Within? && InlineShapeOf(n) == InlineIf && Inlined(n, p.iv)
    ensures var r, x := Eval(n.recv, p.env, st, true, fuel), Eval(n, p.env, st, true, fuel);
      && (!r.Val? ==> x == r)
      && (r.Val? && !r.v.BoolV? ==> x == Stop(Dnu(n.sel, r.v), r.st))
      && (r.Val? && r.v.BoolV? ==>
            x == if r.v.b == (n.sel == IfTrue) then Call(BlockV(n.args.head, p.env), [], r.st, true, fuel) else Val(NilV, r.st))
    ensures var (te, n1) := Resolved(n.recv, p.sc, p.iv, next);
      var f, y := Exec(te, p.d, slots, h, fuel), Exec(Resolved(n, p.sc, p.iv, next).0, p.d, slots, h, fuel);
      && (!f.FVal? ==> y == f)
      && (f.FVal? && !f.v.FBool? ==> y == FStop(Dnu(n.sel, f.v), f.heap))
      && (f.FVal? && f.v.FBool? ==>
            y == if f.v.b == (n.sel == IfTrue) then ExecInline(ResolveAll(n.args.head.body, p.sc, p.iv, n1).0, p.d, f.slots, f.heap, fuel)
                 else FVal(FNil, f.slots, f.heap))
  {
    hide Call, ExecInline;
    var r := Eval(n.recv, p.env, st, true, fuel);
    if r.Val? { OneBlock(n.args.head, p.env, r.st, fuel); }
  }

  lemma SimIf(n: Node, p: Site, next: nat, st: State, slots: RSlots, h: RHeap, w: World, fuel: nat)
    returns (w': World)
    requires InlineShapeOf(n) == InlineIf && Ready(p, next, st, slots, h, w) && CodeOk(n, p, w.clean)
    ensures Agree(Eval(n, p.env, st, true, fuel), Exec(Resolved(n, p.sc, p.iv, next).0, p.d, slots, h, fuel),
                  p, next, st, slots, w, w')
    decreases fuel, 2, n, 1
  {
    hide ValRel, HeapRel, FrameRel, SiteOk, CellsKept, SlotsKept, Call, Usable, WellFormed;
    var b := n.args.head;
    assert Inlined(n, p.iv);
    OperandsOk(n, p, w.clean);
    w' := SimReceiver(n.recv, p, next, st, slots, h, w, fuel);
    IfIs(n, p, next, st, slots, h, fuel);
    hide Eval, Exec, ExecInline, Inlined;
    var r := Eval(n.recv, p.env, st, true, fuel);
    if r.Val? {
      var (te, n1) := Resolved(n.recv, p.sc, p.iv, next);
      var f := Exec(te, p.d, slots, h, fuel);
      ReadyAfter(p, next, n1, st, slots, h, w, r.st, f.slots, f.heap, w');
      NilRel(w');
      if r.v == BoolV(n.sel == IfTrue) {
        var w1 := w';
        w' := SimLiteral(b, p, n1, r.st, f.slots, f.heap, w1, fuel);
        AgreeTrans(Call(BlockV(b, p.env), [], r.st, true, fuel),
                   ExecInline(ResolveAll(b.body, p.sc, p.iv, n1).0, p.d, f.slots, f.heap, fuel),
                   p, next, n1, st, slots, w, r.st, f.slots, f.heap, w1, w');
      }
    }
  }

  /** Evaluating literal blocks as arguments only makes the closures. */
  lemma OneBlock(b: Node, env: Env, st: State, fuel: nat)
    requires b.Block?
    ensures EvalArgs(More(b, NoNodes), env, st, true, fuel) == Vals([BlockV(b, env)], st)
  {
    assert EvalArgs(NoNodes, env, st, true, fuel) == Vals([], st);
    assert Eval(b, env, st, true, fuel) == Val(BlockV(b, env), st);
    assert [BlockV(b, env)] + [] == [BlockV(b, env)];
  }

  lemma TwoBlocks(a: Node, b: Node, env: Env, st: State, fuel: nat)
    requires a.Block? && b.Block?
    ensures EvalArgs(More(a, More(b, NoNodes)), env, st, true, fuel) == Vals([BlockV(a, env), BlockV(b, env)], st)
  {
    OneBlock(b, env, st, fuel);
    assert Eval(a, env, st, true, fuel) == Val(BlockV(a, env), st);
    assert [BlockV(a, env)] + [BlockV(b, env)] == [BlockV(a, env), BlockV(b, env)];
  }

  /** Both sides of a two-armed conditional, by its receiver. */
  lemma IfElseIs(n: Node, p: Site, next: nat, st: State, slots: RSlots, h: RHeap, fuel: nat)
    requires p.sc.Within? && InlineShapeOf(n) == InlineIfElse && Inlined(n, p.iv)
    ensures var r, x := Eval(n.recv, p.env, st, true, fuel), Eval(n, p.env, st, true, fuel);
      && (!r.Val? ==> x == r)
      && (r.Val? && !r.v.BoolV? ==> x == Stop(Dnu(n.sel, r.v), r.st))
      && (r.Val? && r.v.BoolV? ==> x == Call(BlockV(Arm(n, r.v.b), p.env), [], r.st, true, fuel))
    ensures var (te, n1) := Resolved(n.recv, p.sc, p.iv, next);
      var f, y := Exec(te, p.d, slots, h, fuel), Exec(Resolved(n, p.sc, p.iv, next).0, p.d, slots, h, fuel);
      && (!f.FVal? ==> y == f)
      && (f.FVal? && !f.v.FBool? ==> y == FStop(Dnu(n.sel, f.v), f.heap))
      && (f.FVal? && f.v.FBool? ==>
            y == ExecInline(ResolveAll(Arm(n, f.v.b).body, p.sc, p.iv, ArmNext(n, f.v.b, p, n1)).0, p.d, f.slots, f.heap, fuel))
    ensures var n1 := Resolved(n.recv, p.sc, p.iv, next).1; next <= n1 <= ArmNext(n, true, p, n1) && n1 <= ArmNext(n, false, p, n1)
  {
    hide Call, ExecInline;
    var r := Eval(n.recv, p.env, st, true, fuel);
    if r.Val? { TwoBlocks(n.args.head, n.args.tail.head, p.env, r.st, fuel); }
  }

  function Arm(n: Node, b: bool): (t: Node)
    requires InlineShapeOf(n) == InlineIfElse
    ensures t.Block?
  {
    if (n.sel == IfTrueIfFalse) == b then n.args.head else n.args.tail.head
  }

  /** The first slot free for an arm: the arm for true comes first. */
  function ArmNext(n: Node, b: bool, p: Site, next: nat): nat
    requires p.sc.Within? && InlineShapeOf(n) == InlineIfElse
  {
    if b then next else ResolveAll(Arm(n, true).body, p.sc, p.iv, next).1
  }

  lemma SimIfElse(n: Node, p: Site, next: nat, st: State, slots: RSlots, h: RHeap, w: World, fuel: nat)
    returns (w': World)
    requires InlineShapeOf(n) == InlineIfElse && Ready(p, next, st, slots, h, w) && CodeOk(n, p, w.clean)
    ensures Agree(Eval(n, p.env, st, true, fuel), Exec(Resolved(n, p.sc, p.iv, next).0, p.d, slots, h, fuel),
                  p, next, st, slots, w, w')
    decreases fuel, 2, n, 1
  {
    hide ValRel, HeapRel, FrameRel, SiteOk, CellsKept, SlotsKept, Call, Usable, WellFormed;
    assert Inlined(n, p.iv);
    OperandsOk(n, p, w.clean);
    w' := SimReceiver(n.recv, p, next, st, slots, h, w, fuel);
    IfElseIs(n, p, next, st, slots, h, fuel);
    hide Eval, Exec, ExecInline, Resolved, ResolveAll, Inlined;
    var r := Eval(n.recv, p.env, st, true, fuel);
    if r.Val? {
      var (te, n1) := Resolved(n.recv, p.sc, p.iv, next);
      var f := Exec(te, p.d, slots, h, fuel);
      if r.v.BoolV? {
        var w1 := w';
        var taken, from := Arm(n, r.v.b), ArmNext(n, r.v.b, p, n1);
        ReadyAfter(p, next, from, st, slots, h, w, r.st, f.slots, f.heap, w1);
        w' := SimLiteral(taken, p, from, r.st, f.slots, f.heap, w1, fuel);
        AgreeTrans(Call(BlockV(taken, p.env), [], r.st, true, fuel),
                   ExecInline(ResolveAll(taken.body, p.sc, p.iv, from).0, p.d, f.slots, f.heap, fuel),
                   p, next, from, st, slots, w, r.st, f.slots, f.heap, w1, w');
      }
    }
  }

  /** The names of an inlined send are those of its operands, split. */
  lemma OperandNames(n: Node, iv: set<string>)
    requires Inlined(n, iv)
    ensures n.Send? && n.args.More?
    ensures SplitDirect(n.recv, iv) <= Direct(n, iv) && SplitInner(n.recv, iv) <= Inner(n, iv)
    ensures SplitDirect(n.args.head, iv) <= Direct(n, iv) && SplitInner(n.args.head, iv) <= Inner(n, iv)
    ensures n.args.tail.More? ==>
      (SplitDirect(n.args.tail.head, iv) <= Direct(n, iv) && SplitInner(n.args.tail.head, iv) <= Inner(n, iv))
  {
    assert Direct(n, iv) == SplitDirect(n.recv, iv) + SplitDirectAll(n.args, iv);
    assert Inner(n, iv) == SplitInner(n.recv, iv) + SplitInnerAll(n.args, iv);
    if n.args.tail.More? {
      assert SplitDirectAll(n.args.tail, iv) == SplitDirect(n.args.tail.head, iv) + SplitDirectAll(n.args.tail.tail, iv);
      assert SplitInnerAll(n.args.tail, iv) == SplitInner(n.args.tail.head, iv) + SplitInnerAll(n.args.tail.tail, iv);
    }
  }

  lemma SecondWellFormed(n: Node, p: Site, clean: bool)
    requires n.Send? && n.args.More? && n.args.tail.More? && CodeOk(n, p, clean)
    ensures WellFormed(n.args.tail.head, Bound(p.sc), p.args, p.iv)
  {
    assert AllWellFormed(n.args, Bound(p.sc), p.args, p.iv);
    assert AllWellFormed(n.args.tail, Bound(p.sc), p.args, p.iv);
  }

  /** The operands of an inlined conditional or loop meet the conditions they are compiled under. */
  lemma OperandsOk(n: Node, p: Site, clean: bool)
    requires InlineShapeOf(n) == InlineIf || InlineShapeOf(n) == InlineIfElse || InlineShapeOf(n) == InlineWhile
    requires CodeOk(n, p, clean)
    ensures WellFormed(n.recv, Bound(p.sc), p.args, p.iv)
      && Usable(SplitDirect(n.recv, p.iv), SplitInner(n.recv, p.iv), p.names, p.sc, p.iv)
    ensures clean && InlineShapeOf(n) != InlineWhile ==> CleanOperand(n.recv, PlainOf(p.sc), p.iv)
    ensures IsInlineableBlock(n.args.head) && AllCodeOk(n.args.head.body, p, clean)
    ensures InlineShapeOf(n) == InlineIfElse ==>
      IsInlineableBlock(n.args.tail.head) && AllCodeOk(n.args.tail.head.body, p, clean)
    ensures InlineShapeOf(n) == InlineWhile ==> IsInlineableBlock(n.recv) && AllCodeOk(n.recv.body, p, clean)
  {
    hide Bound, Usable;
    assert Inlined(n, p.iv);
    OperandNames(n, p.iv);
    UsableSub(Direct(n, p.iv), Inner(n, p.iv), SplitDirect(n.recv, p.iv), SplitInner(n.recv, p.iv), p);
    UsableSub(Direct(n, p.iv), Inner(n, p.iv), FreeDirect(n.args.head, p.iv), FreeInner(n.args.head, p.iv), p);
    assert AllWellFormed(n.args, Bound(p.sc), p.args, p.iv);
    assert clean ==> CleanInlined(n, PlainOf(p.sc), p.iv);
    LiteralOk(n.args.head, p, clean);
    if InlineShapeOf(n) == InlineIfElse {
      var b := n.args.tail.head;
      UsableSub(Direct(n, p.iv), Inner(n, p.iv), FreeDirect(b, p.iv), FreeInner(b, p.iv), p);
      SecondWellFormed(n, p, clean);
      LiteralOk(b, p, clean);
    }
    if InlineShapeOf(n) == InlineWhile { LiteralOk(n.recv, p, clean); }
  }

  lemma SimWhileSend(n: Node, p: Site, next: nat, st: State, slots: RSlots, h: RHeap, w: World, fuel: nat)
    returns (w': World)
    requires InlineShapeOf(n) == InlineWhile && Ready(p, next, st, slots, h, w) && CodeOk(n, p, w.clean)
    ensures Agree(Eval(n, p.env, st, true, fuel), Exec(Resolved(n, p.sc, p.iv, next).0, p.d, slots, h, fuel),
                  p, next, st, slots, w, w')
    decreases fuel, 2, n, 1
  {
    hide Agree, Rel, SiteOk, Usable, WellFormed, While, ExecLoop;
    assert Inlined(n, p.iv);
    OperandsOk(n, p, w.clean);
    OneBlock(n.args.head, p.env, st, fuel);
    assert Eval(n.recv, p.env, st, true, fuel) == Val(BlockV(n.recv, p.env), st);
    w' := SimLoop(n, p, next, st, slots, h, w, fuel);
  }

  lemma SimLoop(n: Node, p: Site, next: nat, st: State, slots: RSlots, h: RHeap, w: World, fuel: nat)
    returns (w': World)
    requires InlineShapeOf(n) == InlineWhile && Inlined(n, p.iv) && Ready(p, next, st, slots, h, w)
    requires IsInlineableBlock(n.recv) && AllCodeOk(n.recv.body, p, w.clean)
    requires IsInlineableBlock(n.args.head) && AllCodeOk(n.args.head.body, p, w.clean)
    ensures Resolved(n, p.sc, p.iv, next).0.Loop?
    ensures Agree(While(n.sel, BlockV(n.recv, p.env), BlockV(n.args.head, p.env), st, true, true, fuel),
                  ExecLoop(Resolved(n, p.sc, p.iv, next).0, p.d, slots, h, fuel), p, next, st, slots, w, w')
    decreases fuel, 1
  {
    hide ValRel, HeapRel, FrameRel, SiteOk, CellsKept, SlotsKept, Call, AllCodeOk;
    w' := w;
    var c, b := BlockV(n.recv, p.env), BlockV(n.args.head, p.env);
    var (te, n1) := ResolveAll(n.recv.body, p.sc, p.iv, next);
    var (be, n2) := ResolveAll(n.args.head.body, p.sc, p.iv, n1);
    var e := Resolved(n, p.sc, p.iv, next).0;
    assert e == ResolveInlined(n, p.sc, p.iv, next).0;
    assert e == Loop(n.sel, n.sel == WhileTrue, te, be);
    if fuel > 0 {
      w' := SimLiteral(n.recv, p, next, st, slots, h, w, fuel - 1);
      var r := Call(c, [], st, true, fuel - 1);
      var f := ExecInline(te, p.d, slots, h, fuel - 1);
      if r.Val? {
        BlockRel(r.v, f.v, w');
        NilRel(w');
        if r.v == BoolV(n.sel == WhileTrue) {
          var w1 := w';
          ReadyAfter(p, next, n1, st, slots, h, w, r.st, f.slots, f.heap, w1);
          w' := SimLiteral(n.args.head, p, n1, r.st, f.slots, f.heap, w1, fuel - 1);
          var r2 := Call(b, [], r.st, true, fuel - 1);
          var f2 := ExecInline(be, p.d, f.slots, f.heap, fuel - 1);
          AgreeTrans(r2, f2, p, next, n1, st, slots, w, r.st, f.slots, f.heap, w1, w');
          if r2.Val? {
            var w2 := w';
            ReadyAfter(p, next, next, st, slots, h, w, r2.st, f2.slots, f2.heap, w2);
            w' := SimLoop(n, p, next, r2.st, f2.slots, f2.heap, w2, fuel - 1);
            AgreeTrans(While(n.sel, c, b, r2.st, true, true, fuel - 1), ExecLoop(e, p.d, f2.slots, f2.heap, fuel - 1),
                       p, next, next, st, slots, w, r2.st, f2.slots, f2.heap, w2, w');
          }
        }
      }
    }
  }

  /** The body of an inlined to:do: meets the conditions it is compiled under. */
  lemma LoopBodyOk(n: Node, p: Site, base: nat, k: nat, clean: bool)
    requires InlineShapeOf(n) == InlineToDo && Inlined(n, p.iv) && CodeOk(n, p, clean) && p.sc.Within?
    ensures AllCodeOk(ToDoBody(n).body, LoopSite(p, ToDoBody(n).params[0], base, k), clean)
  {
    var b := ToDoBody(n);
    var x := b.params[0];
    var q := LoopSite(p, x, base, k);
    assert Declared(b) == [x] && b.params + b.temps == [x] && Elems([x]) == {x} && b.params == [x];
    assert Bound(q.sc) == Bound(p.sc) + {x};
    assert (p.args - {x}) + {x} == q.args;
    assert PlainOf(q.sc) == PlainOf(p.sc) + {x};
    assert clean ==> CleanInlined(n, PlainOf(p.sc), p.iv);
    OperandNames(n, p.iv);
    SecondWellFormed(n, p, clean);
    forall y | y in DirectAll(b.body, q.iv) ensures y in q.iv || (y in q.names && (IsCaptured(q.sc, y) || InOwnSlot(q.sc, y))) {
      if y != x && y !in q.iv {
        assert y in FreeDirect(b, p.iv);
        LoopNames(p, x, base, y);
      }
    }
    InnerAllAvoidsInstVars(b.body, q.iv);
    forall y | y in InnerAll(b.body, q.iv) ensures y in q.names && IsCaptured(q.sc, y) {
      assert y in FreeInner(b, p.iv);
      LoopNames(p, x, base, y);
    }
  }

  lemma ToDoOperandsOk(n: Node, p: Site, clean: bool)
    requires InlineShapeOf(n) == InlineToDo && Inlined(n, p.iv) && CodeOk(n, p, clean)
    ensures WellFormed(n.recv, Bound(p.sc), p.args, p.iv) && WellFormed(n.args.head, Bound(p.sc), p.args, p.iv)
    ensures Usable(SplitDirect(n.recv, p.iv), SplitInner(n.recv, p.iv), p.names, p.sc, p.iv)
    ensures Usable(SplitDirect(n.args.head, p.iv), SplitInner(n.args.head, p.iv), p.names, p.sc, p.iv)
    ensures clean ==> CleanOperand(n.recv, PlainOf(p.sc), p.iv) && CleanOperand(n.args.head, PlainOf(p.sc), p.iv)
  {
    hide Usable;
    assert clean ==> CleanInlined(n, PlainOf(p.sc), p.iv);
    OperandNames(n, p.iv);
    UsableSub(Direct(n, p.iv), Inner(n, p.iv), SplitDirect(n.recv, p.iv), SplitInner(n.recv, p.iv), p);
    UsableSub(Direct(n, p.iv), Inner(n, p.iv), SplitDirect(n.args.head, p.iv), SplitInner(n.args.head, p.iv), p);
    assert AllWellFormed(n.args, Bound(p.sc), p.args, p.iv);
  }

  /** Setting a hidden slot is no business of the frame relation. */
  lemma HiddenSlot(p: Site, base: nat, s: nat, v: RValue, st: State, slots: RSlots, h: RHeap, w: World,
                   st1: State, slots1: RSlots, h1: RHeap, w1: World)
    requires ScopeOk(p.sc, base) && s >= base && Post(p, base, st, slots, w, st1, slots1, h1, w1)
    ensures Post(p, base, st, slots, w, st1, slots1[s := v], h1, w1)
  {
    hide HeapRel, ValRel;
    forall x | x in p.names && InOwnSlot(p.sc, x) ensures SlotOk(x, p.sc, p.env, st1.cells, slots1[s := v], w1) {
      assert SlotOk(x, p.sc, p.env, st1.cells, slots1, w1);
    }
    forall t: nat | t < base && !Assignable(p.sc, t) ensures ReadSlot(slots1[s := v], t) == ReadSlot(slots, t) {
      assert ReadSlot(slots1, t) == ReadSlot(slots, t);
    }
  }

  lemma SiteScope(p: Site, next: nat)
    requires SiteOk(p, next)
    ensures ScopeOk(p.sc, next)
  {
  }

  lemma SiteGrows(p: Site, next: nat, next': nat, st: State, slots: RSlots, h: RHeap, w: World)
    requires Ready(p, next, st, slots, h, w) && next <= next'
    ensures Ready(p, next', st, slots, h, w)
  {
    hide Rel, Sane;
  }

  lemma PostWeaken(p: Site, n0: nat, n1: nat, st0: State, s0: RSlots, w0: World, st1: State, s1: RSlots, h1: RHeap, w1: World)
    requires p.sc.Within? && n0 <= n1 && Post(p, n1, st0, s0, w0, st1, s1, h1, w1)
    ensures Post(p, n0, st0, s0, w0, st1, s1, h1, w1)
  {
    hide Rel, CellsKept, Extends;
  }

  lemma AgreeWeaken(r: Result, f: FResult, p: Site, n0: nat, n1: nat, st: State, slots: RSlots, w: World, w': World)
    requires p.sc.Within? && n0 <= n1 && Agree(r, f, p, n1, st, slots, w, w')
    ensures Agree(r, f, p, n0, st, slots, w, w')
  {
    hide Post, ValRel, AllRel, WhyRel, HeapRel;
    match r
    case Val(v, st1) => PostWeaken(p, n0, n1, st, slots, w, st1, f.slots, f.heap, w');
    case Vals(vs, st1) => PostWeaken(p, n0, n1, st, slots, w, st1, f.slots, f.heap, w');
    case _ =>
  }

  /** The counter slot and the bound slot, set before the loop, hold what was evaluated. */
  /** Both sides of a counting loop, by its receiver. */
  lemma ToDoIs(n: Node, p: Site, next: nat, st: State, slots: RSlots, h: RHeap, fuel: nat)
    requires p.sc.Within? && InlineShapeOf(n) == InlineToDo && Inlined(n, p.iv)
    ensures var a := Eval(n.recv, p.env, st, true, fuel);
      Eval(n, p.env, st, true, fuel) == if a.Val? then ToDoRest(n, a.v, p.env, a.st, fuel) else a
    ensures var (se, n1) := Resolved(n.recv, p.sc, p.iv, next + 2);
      var f := Exec(se, p.d, slots, h, fuel);
      Exec(Resolved(n, p.sc, p.iv, next).0, p.d, slots, h, fuel) ==
        if f.FVal? then ToDoFRest(n, f.v, p, next, n1, f.slots[next := f.v], f.heap, fuel) else f
  {
    hide Count, ExecCount;
    LoopCodeIs(n, p, next);
  }

  lemma SimToDo(n: Node, p: Site, next: nat, st: State, slots: RSlots, h: RHeap, w: World, fuel: nat)
    returns (w': World)
    requires InlineShapeOf(n) == InlineToDo && Inlined(n, p.iv) && Ready(p, next, st, slots, h, w) && CodeOk(n, p, w.clean)
    ensures Agree(Eval(n, p.env, st, true, fuel), Exec(Resolved(n, p.sc, p.iv, next).0, p.d, slots, h, fuel),
                  p, next, st, slots, w, w')
    decreases fuel, 2, n, 1
  {
    hide ValRel, HeapRel, FrameRel, CellsKept, SlotsKept, Count, ExecCount, Usable, WellFormed, Sane, SiteOk, CodeOk, Direct, Inner;
    ToDoOperandsOk(n, p, w.clean);
    LoopCodeIs(n, p, next);
    SiteScope(p, next);
    SiteGrows(p, next, next + 2, st, slots, h, w);
    w' := SimReceiver(n.recv, p, next + 2, st, slots, h, w, fuel);
    ToDoIs(n, p, next, st, slots, h, fuel);
    hide Eval, Exec, ToDoRest, ToDoFRest, Resolved, Inlined;
    var a := Eval(n.recv, p.env, st, true, fuel);
    var (se, n1) := Resolved(n.recv, p.sc, p.iv, next + 2);
    var fa := Exec(se, p.d, slots, h, fuel);
    if !a.Val? {
      AgreeWeaken(a, fa, p, next, next + 2, st, slots, w, w');
    } else {
      PostWeaken(p, next, next + 2, st, slots, w, a.st, fa.slots, fa.heap, w');
      HiddenSlot(p, next, next, fa.v, st, slots, h, w, a.st, fa.slots, fa.heap, w');
      ReadyAfter(p, next, n1, st, slots, h, w, a.st, fa.slots[next := fa.v], fa.heap, w');
      var w1 := w';
      w' := SimToDoStop(n, p, next, n1, a.v, fa.v, a.st, fa.slots[next := fa.v], fa.heap, w1, fuel);
      AgreeTrans(ToDoRest(n, a.v, p.env, a.st, fuel), ToDoFRest(n, fa.v, p, next, n1, fa.slots[next := fa.v], fa.heap, fuel),
                 p, next, next, st, slots, w, a.st, fa.slots[next := fa.v], fa.heap, w1, w');
    }
  }

  /** A to:do: once its receiver is evaluated. */
  function ToDoRest(n: Node, start: Value, env: Env, st: State, fuel: nat): Result
    requires InlineShapeOf(n) == InlineToDo
  {
    var args := EvalArgs(n.args, env, st, true, fuel);
    if !args.Vals? then args else Apply(n.sel, start, args.vs, args.st, true, false, fuel)
  }

  function ToDoFRest(n: Node, start: RValue, p: Site, base: nat, n1: nat, slots: RSlots, h: RHeap, fuel: nat): FResult
    requires InlineShapeOf(n) == InlineToDo && Inlined(n, p.iv) && p.sc.Within?
  {
    var (te, n2) := Resolved(n.args.head, p.sc, p.iv, n1);
    var b := Exec(te, p.d, slots, h, fuel);
    if !b.FVal? then b
    else ExecCount(LoopCode(n, p, base), start, p.d, b.slots[base + 1 := b.v], b.heap, fuel)
  }

  function LoopCode(n: Node, p: Site, base: nat): (e: RExpr)
    requires InlineShapeOf(n) == InlineToDo && Inlined(n, p.iv) && p.sc.Within?
    ensures e.CountLoop? && e == Resolved(n, p.sc, p.iv, base).0
  {
    ResolveInlined(n, p.sc, p.iv, base).0
  }

  lemma LoopCodeIs(n: Node, p: Site, base: nat)
    requires InlineShapeOf(n) == InlineToDo && Inlined(n, p.iv) && p.sc.Within?
    ensures var b := ToDoBody(n);
      var (start, n1) := Resolved(n.recv, p.sc, p.iv, base + 2);
      var (stop, n2) := Resolved(n.args.head, p.sc, p.iv, n1);
      LoopCode(n, p, base) == CountLoop(base, base + 1, start, stop,
        ResolveAll(b.body, LoopScope(p.sc, b.params[0], base), p.iv - {b.params[0]}, n2).0)
  {
    hide Inlined;
  }

  lemma ToDoArgs(n: Node, env: Env, st: State, fuel: nat)
    requires InlineShapeOf(n) == InlineToDo
    ensures var b := Eval(n.args.head, env, st, true, fuel);
      EvalArgs(n.args, env, st, true, fuel)
      == if b.Val? then Vals([b.v, BlockV(ToDoBody(n), env)], b.st) else b
  {
    var b := Eval(n.args.head, env, st, true, fuel);
    if b.Val? {
      OneBlock(ToDoBody(n), env, b.st, fuel);
      assert n.args.tail == More(ToDoBody(n), NoNodes);
    }
  }

  lemma SimToDoStop(n: Node, p: Site, base: nat, n1: nat, start: Value, fstart: RValue,
                    st: State, slots: RSlots, h: RHeap, w: World, fuel: nat)
    returns (w': World)
    requires InlineShapeOf(n) == InlineToDo && Inlined(n, p.iv) && CodeOk(n, p, w.clean)
    requires Ready(p, n1, st, slots, h, w) && ScopeOk(p.sc, base) && n1 == Resolved(n.recv, p.sc, p.iv, base + 2).1
    requires ReadSlot(slots, base) == fstart
    requires start.IntV? == fstart.FInt? && (start.IntV? ==> start.n == fstart.n) && OperandRel(start, fstart, w)
    ensures Agree(ToDoRest(n, start, p.env, st, fuel), ToDoFRest(n, fstart, p, base, n1, slots, h, fuel),
                  p, base, st, slots, w, w')
    decreases fuel, 2, n, 0
  {
    hide ValRel, HeapRel, FrameRel, CellsKept, Count, Usable, WellFormed, Sane, CodeOk, Direct, Inner;
    ToDoOperandsOk(n, p, w.clean);
    LoopCodeIs(n, p, base);
    ToDoArgs(n, p.env, st, fuel);
    w' := SimReceiver(n.args.head, p, n1, st, slots, h, w, fuel);
    var b := Eval(n.args.head, p.env, st, true, fuel);
    var (te, n2) := Resolved(n.args.head, p.sc, p.iv, n1);
    var fb := Exec(te, p.d, slots, h, fuel);
    if !b.Val? {
      AgreeWeaken(b, fb, p, base, n1, st, slots, w, w');
    } else {
      HiddenKept(p, base, base, n1, slots, fb.slots);
      PostWeaken(p, base, n1, st, slots, w, b.st, fb.slots, fb.heap, w');
      OperandMono(start, fstart, p, n1, st, slots, w, b.st, fb.slots, fb.heap, w');
      HiddenSlot(p, base, base + 1, fb.v, st, slots, h, w, b.st, fb.slots, fb.heap, w');
      var slots2 := fb.slots[base + 1 := fb.v];
      assert ReadSlot(slots2, base) == fstart;
      if start.IntV? && b.v.IntV? {
        var w1 := w';
        ReadyAtBase(p, base, n1, st, slots, h, w, b.st, slots2, fb.heap, w1);
        w' := SimCountLoop(n, p, base, n2, start.n, start.n, b.v.n, b.st, slots2, fb.heap, w1, fuel);
        AgreeTrans(Count(start.n, start.n, b.v.n, BlockV(ToDoBody(n), p.env), b.st, true, fuel),
                   ExecCount(LoopCode(n, p, base), FInt(start.n), p.d, slots2, fb.heap, fuel),
                   p, base, base, st, slots, w, b.st, slots2, fb.heap, w1, w');
      }
    }
  }

  lemma ReadyAtBase(p: Site, base: nat, n1: nat, st0: State, s0: RSlots, h0: RHeap, w0: World,
                    st1: State, s1: RSlots, h1: RHeap, w1: World)
    requires Ready(p, n1, st0, s0, h0, w0) && ScopeOk(p.sc, base) && Post(p, base, st0, s0, w0, st1, s1, h1, w1)
    ensures Ready(p, base, st1, s1, h1, w1)
  {
    hide Rel, Sane;
  }

  lemma HiddenKept(p: Site, base: nat, s: nat, n1: nat, slots: RSlots, slots': RSlots)
    requires ScopeOk(p.sc, base) && base <= s < n1 && SlotsKept(p.sc, n1, slots, slots')
    ensures ReadSlot(slots', s) == ReadSlot(slots, s)
  {
    assert !Assignable(p.sc, s);
  }

  lemma SimCountLoop(n: Node, p: Site, base: nat, n2: nat, start: int, i: int, stop: int,
                     st: State, slots: RSlots, h: RHeap, w: World, fuel: nat)
    returns (w': World)
    requires InlineShapeOf(n) == InlineToDo && Inlined(n, p.iv) && CodeOk(n, p, w.clean) && Ready(p, base, st, slots, h, w)
    requires n2 == Resolved(n.args.head, p.sc, p.iv, Resolved(n.recv, p.sc, p.iv, base + 2).1).1
    requires ReadSlot(slots, base) == FInt(i) && ReadSlot(slots, base + 1) == FInt(stop)
    ensures Agree(Count(start, i, stop, BlockV(ToDoBody(n), p.env), st, true, fuel),
                  ExecCount(LoopCode(n, p, base), FInt(start), p.d, slots, h, fuel), p, base, st, slots, w, w')
    decreases fuel, 0
  {
    hide HeapRel, FrameRel, CellsKept, SlotsKept, Usable, WellFormed, Sane, CodeOk, Direct, Inner, SiteOk, CloRel, Call;
    w' := w;
    var b := ToDoBody(n);
    var x := b.params[0];
    var e := LoopCode(n, p, base);
    LoopCodeIs(n, p, base);
    PostSelf(p, base, st, slots, h, w);
    if i <= stop && fuel > 0 {
      w' := SimIteration(n, p, base, n2, i, st, slots, h, w, fuel - 1);
      var r := Call(BlockV(b, p.env), [IntV(i)], st, true, fuel - 1);
      var f := ExecInline(e.body, p.d, slots, h, fuel - 1);
      if r.Val? {
        var w1 := w';
        var slots1 := f.slots[base := FInt(i + 1)];
        ReadyAfter(p, base, base, st, slots, h, w, r.st, slots1, f.heap, w1);
        w' := SimCountLoop(n, p, base, n2, start, i + 1, stop, r.st, slots1, f.heap, w1, fuel - 1);
        AgreeTrans(Count(start, i + 1, stop, BlockV(b, p.env), r.st, true, fuel - 1),
                   ExecCount(e, FInt(start), p.d, slots1, f.heap, fuel - 1),
                   p, base, base, st, slots, w, r.st, slots1, f.heap, w1, w');
      }
    }
  }

  /** One iteration: the call of the real block against its body compiled in line. */
  lemma SimIteration(n: Node, p: Site, base: nat, n2: nat, i: int, st: State, slots: RSlots, h: RHeap, w: World, fuel: nat)
    returns (w': World)
    requires InlineShapeOf(n) == InlineToDo && Inlined(n, p.iv) && CodeOk(n, p, w.clean) && Ready(p, base, st, slots, h, w)
    requires n2 == Resolved(n.args.head, p.sc, p.iv, Resolved(n.recv, p.sc, p.iv, base + 2).1).1
    requires ReadSlot(slots, base) == FInt(i)
    ensures var r := Call(BlockV(ToDoBody(n), p.env), [IntV(i)], st, true, fuel);
      var f := ExecInline(LoopCode(n, p, base).body, p.d, slots, h, fuel);
      match r
      case Val(v, st') =>
        f.FVal? && ReadSlot(f.slots, base) == FInt(i) && ReadSlot(f.slots, base + 1) == ReadSlot(slots, base + 1)
        && Post(p, base, st, slots, w, st', f.slots[base := FInt(i + 1)], f.heap, w')
      case Vals(_, _) => false
      case Stop(why, st') => f.FStop? && WhyRel(why, f.why, w') && HeapRel(st', f.heap, w') && w'.clean == w.clean
      case Timeout => f.FTimeout?
    decreases fuel, 1
  {
    hide HeapRel, FrameRel, CellsKept, SlotsKept, Usable, WellFormed, Sane, CodeOk, Direct, Inner, SiteOk, ValRel, Rel, AllCodeOk;
    w' := w;
    var b := ToDoBody(n);
    var x := b.params[0];
    CallOne(b, p.env, i, st, fuel);
    LoopCodeIs(n, p, base);
    if fuel > 0 {
      var q := LoopSite(p, x, base, |st.cells|);
      var st1 := st.(cells := st.cells + [IntV(i)]);
      EnterLoop(p, x, base, n2, i, st, slots, h, w);
      LoopBodyOk(n, p, base, |st.cells|, w.clean);
      w' := SimBody(b.body, q, n2, st1, slots, h, w, fuel - 1);
      var r := EvalBody(b.body, q.env, st1, true, fuel - 1);
      var f := ExecBody(ResolveAll(b.body, q.sc, q.iv, n2).0, q.d, slots, h, fuel - 1);
      if r.Val? {
        LeaveLoop(p, x, base, n2, i, st, slots, h, w, r.st, f.slots, f.heap, w', FInt(i + 1));
      }
    }
  }

  lemma CallOne(b: Node, env: Env, i: int, st: State, fuel: nat)
    requires b.Block? && |b.params| == 1 && b.temps == []
    ensures Call(BlockV(b, env), [IntV(i)], st, true, fuel)
         == if fuel == 0 then Timeout
            else EvalBody(b.body, env[b.params[0] := |st.cells|], st.(cells := st.cells + [IntV(i)]), true, fuel - 1)
  {
    hide EvalBody;
    var x := b.params[0];
    assert b.params == [x] && Declared(b) == [x] + [];
    ActivateOne(env, x, st);
    assert st.cells + [IntV(i)] + Nils(0) == st.cells + [IntV(i)];
  }
}
