/** Closure conversion preserves meaning: evaluating a method over mutable cells and running its
    resolved code over slots and captured dictionaries agree, run for run. */
module ClosureProof {
  import opened Syntax
  import opened Analysis
  import opened Resolve
  import opened Reference
  import opened Frames
  import opened ClosureWorld

  // ----- Opening a frame -----

  lemma {:induction false} DefineAllShift(binds: map<string, RValue>, ds: seq<Define>, slots: RSlots, i: nat)
    requires i <= |ds|
    ensures DefineAll(binds, ds, slots, i) == DefineAll(binds, ds[i..], slots, 0)
    decreases |ds| - i
  {
    if i < |ds| {
      var b' := binds[ds[i].name := SourceValue(slots, ds[i].fromSlot)];
      DefineAllShift(b', ds, slots, i + 1);
      DefineAllShift(b', ds[i..], slots, 1);
      assert ds[i..][1..] == ds[i + 1..];
    }
  }

  /** What the capture prologue binds: each captured name, its argument's value or nil. */
  lemma {:induction false} PrologueBinds(names: seq<string>, argCount: nat, first: nat, captured: set<string>,
                                         slots: RSlots, i: nat, binds: map<string, RValue>)
    requires i <= |names| && Distinct(names)
    ensures var r := DefineAll(binds, Defines(names, argCount, first, captured, i), slots, 0);
      && (forall j {:trigger names[j]} :: i <= j < |names| && names[j] in captured ==>
            names[j] in r && r[names[j]] == if j < argCount then ReadSlot(slots, first + j) else FNil)
      && (forall x :: (forall j :: i <= j < |names| && names[j] in captured ==> names[j] != x) ==>
            ((x in r <==> x in binds) && (x in binds ==> r[x] == binds[x])))
    decreases |names| - i
  {
    if i < |names| {
      if names[i] in captured {
        var source := if i < argCount then FromSlot(first + i) else FromNil;
        var rest := Defines(names, argCount, first, captured, i + 1);
        var ds := [Define(names[i], source)] + rest;
        var b' := binds[names[i] := SourceValue(slots, source)];
        DefineAllShift(b', ds, slots, 1);
        assert ds[1..] == rest;
        PrologueBinds(names, argCount, first, captured, slots, i + 1, b');
        assert forall j :: i + 1 <= j < |names| && names[j] in captured ==> names[j] != names[i];
      } else {
        PrologueBinds(names, argCount, first, captured, slots, i + 1, binds);
      }
    }
  }

  lemma {:induction false} DefinesNone(names: seq<string>, argCount: nat, first: nat, captured: set<string>, i: nat)
    requires i <= |names|
    ensures Defines(names, argCount, first, captured, i) == [] <==>
            forall j :: i <= j < |names| ==> names[j] !in captured
    decreases |names| - i
  {
    if i < |names| { DefinesNone(names, argCount, first, captured, i + 1); }
  }

  lemma PrologueKeys(names: seq<string>, argCount: nat, first: nat, captured: set<string>, slots: RSlots)
    requires Distinct(names) && captured <= Elems(names)
    ensures DefineAll(map[], Defines(names, argCount, first, captured, 0), slots, 0).Keys == captured
  {
    PrologueBinds(names, argCount, first, captured, slots, 0, map[]);
    var r := DefineAll(map[], Defines(names, argCount, first, captured, 0), slots, 0);
    forall x | x in captured ensures x in r {
      var j := IndexOf(names, x);
      assert names[j] == x;
    }
    forall x | x !in captured ensures x !in r {
      forall j | 0 <= j < |names| && names[j] in captured ensures names[j] != x {}
    }
  }

  /** The cells of an activation that go to its dictionary. */
  function CapturedCells(names: seq<string>, k: nat, captured: set<string>): (s: set<nat>)
    ensures forall c :: c in s ==> k <= c < k + |names| && names[c - k] in captured
    ensures forall j :: 0 <= j < |names| && names[j] in captured ==> k + j in s
  {
    set j | 0 <= j < |names| && names[j] in captured :: k + j
  }

  function FrameWorld(w: World, k: nat, id: nat, names: seq<string>, captured: set<string>, parent: Link): World {
    if captured == {} then w
    else World(w.mu + map c | c in CapturedCells(names, k, captured) :: Loc(id, names[c - k]),
               w.shapes + [Shape(parent, captured)], w.clean)
  }

  lemma WorldBounds(st: State, h: RHeap, w: World)
    requires HeapRel(st, h, w)
    ensures forall c | c in w.mu :: c < |st.cells| && w.mu[c].dict < |w.shapes|
    ensures |w.shapes| == |h.dicts|
  {
    forall c | c in w.mu ensures c < |st.cells| && w.mu[c].dict < |w.shapes| { assert CellOk(c, st, h, w); }
  }

  lemma FrameWorldExtends(names: seq<string>, captured: set<string>, parent: Link, st: State, h: RHeap, w: World)
    requires HeapRel(st, h, w) && Distinct(names)
    ensures var w' := FrameWorld(w, |st.cells|, |h.dicts|, names, captured, parent);
      Extends(w, w', |st.cells|)
      && forall a, b | a in w'.mu && b in w'.mu && a != b :: w'.mu[a] != w'.mu[b]
  {
    WorldBounds(st, h, w);
  }

  lemma SelfRelMono(a: map<string, Value>, b: map<string, RValue>, w: World, w': World, k: nat)
    requires SelfRel(a, b, w) && Extends(w, w', k)
    ensures SelfRel(a, b, w')
  {
    forall x | x in a ensures ValRel(a[x], b[x], w') { ValRelMono(a[x], b[x], w, w', k); }
  }

  lemma ArgSlot(pre: seq<RValue>, argF: seq<RValue>, j: nat)
    ensures ReadSlot(ArgSlots(pre + argF), |pre| + j) == if j < |argF| then argF[j] else FNil
  {
  }

  lemma NumberKeys(names: seq<string>, base: nat)
    ensures Number(names, base).Keys == Elems(names)
  {
  }

  lemma NumberAt(names: seq<string>, base: nat, base2: nat, x: string) returns (j: nat)
    requires x in Elems(names)
    ensures j < |names| && names[j] == x && x in Number(names, base) && x in Number(names, base2)
    ensures Number(names, base)[x] == base + j && Number(names, base2)[x] == base2 + j
  {
    j := IndexOf(names, x);
  }

  /** A cell of the new activation and its binding. */
  lemma OpenCell(names: seq<string>, argCount: nat, captured: set<string>,
                 pre: seq<RValue>, argV: seq<Value>, argF: seq<RValue>, j: nat, w: World)
    requires Distinct(names) && |argV| == argCount <= |names| && j < |names| && names[j] in captured
    requires AllRel(argV, argF, w)
    ensures var binds := DefineAll(map[], Defines(names, argCount, |pre|, captured, 0), ArgSlots(pre + argF), 0);
      names[j] in binds && ValRel((argV + Nils(|names| - argCount))[j], binds[names[j]], w)
  {
    PrologueBinds(names, argCount, |pre|, captured, ArgSlots(pre + argF), 0, map[]);
    ArgSlot(pre, argF, j);
  }

  lemma OldCell(c: nat, st: State, more: seq<Value>, h: RHeap, d: Dict<RBlock>, w: World, w': World)
    requires HeapRel(st, h, w) && c in w.mu && Extends(w, w', |st.cells|)
    ensures CellOk(c, st.(cells := st.cells + more), h.(dicts := h.dicts + [d]), w')
  {
    hide ValRel;
    assert CellOk(c, st, h, w);
    ValRelMono(st.cells[c], h.dicts[w.mu[c].dict].binds[w.mu[c].name], w, w', |st.cells|);
  }

  /** The heap after the prologue of an activation. */
  lemma OpenHeap(names: seq<string>, argCount: nat, captured: set<string>, parent: Link,
                 pre: seq<RValue>, argV: seq<Value>, argF: seq<RValue>, st: State, h: RHeap, w: World)
    requires Distinct(names) && captured <= Elems(names) && captured != {} && |argV| == argCount <= |names|
    requires HeapRel(st, h, w) && AllRel(argV, argF, w)
    ensures var slots := ArgSlots(pre + argF);
      var binds := DefineAll(map[], Defines(names, argCount, |pre|, captured, 0), slots, 0);
      var h' := h.(dicts := h.dicts + [Dict(parent, binds)]);
      var st' := st.(cells := st.cells + (argV + Nils(|names| - argCount)));
      HeapRel(st', h', FrameWorld(w, |st.cells|, |h.dicts|, names, captured, parent))
  {
    hide ValRel, Owner, Elems, Distinct, DefineAll, Defines, ArgSlots;
    var k := |st.cells|;
    var slots := ArgSlots(pre + argF);
    var binds := DefineAll(map[], Defines(names, argCount, |pre|, captured, 0), slots, 0);
    var h' := h.(dicts := h.dicts + [Dict(parent, binds)]);
    var st' := st.(cells := st.cells + (argV + Nils(|names| - argCount)));
    var w' := FrameWorld(w, k, |h.dicts|, names, captured, parent);
    FrameWorldExtends(names, captured, parent, st, h, w);
    WorldBounds(st, h, w);
    PrologueKeys(names, argCount, |pre|, captured, slots);
    assert ShapesOf(h') == w'.shapes;
    assert st'.cells == st.cells + st'.cells[k..] && h'.dicts == h.dicts + [h'.dicts[|h.dicts|]];
    AllRelMono(argV, argF, w, w', k);
    SelfRelMono(st.self, h.self, w, w', k);
    forall c | c in w'.mu ensures CellOk(c, st', h', w') {
      if c in w.mu {
        OldCell(c, st, st'.cells[k..], h, h'.dicts[|h.dicts|], w, w');
      } else {
        OpenCell(names, argCount, captured, pre, argV, argF, c - k, w');
        assert st'.cells[c] == (argV + Nils(|names| - argCount))[c - k];
      }
    }
  }

  lemma CellsGrow(st: State, h: RHeap, w: World, more: seq<Value>)
    requires HeapRel(st, h, w)
    ensures HeapRel(st.(cells := st.cells + more), h, w)
  {
    forall c | c in w.mu ensures CellOk(c, st.(cells := st.cells + more), h, w) { assert CellOk(c, st, h, w); }
  }

  lemma CapturedNamesOccur(names: seq<string>, captured: set<string>)
    requires captured <= Elems(names)
    ensures captured == {} <==> forall j :: 0 <= j < |names| ==> names[j] !in captured
  {
    if captured != {} {
      var x :| x in captured;
      assert names[IndexOf(names, x)] in captured;
    }
  }

  /** What entering a scope does to the dictionaries, the heap and the correspondence. */
  lemma OpenScope(names: seq<string>, argCount: nat, captured: set<string>, parent: Link,
                  pre: seq<RValue>, argV: seq<Value>, argF: seq<RValue>, st: State, h: RHeap, w: World)
    requires Distinct(names) && captured <= Elems(names) && |argV| == argCount <= |names|
    requires HeapRel(st, h, w) && AllRel(argV, argF, w)
    ensures var slots := ArgSlots(pre + argF);
      var (d', h') := OpenDict(h, parent, Defines(names, argCount, |pre|, captured, 0), slots);
      var st' := st.(cells := st.cells + (argV + Nils(|names| - argCount)));
      var w' := FrameWorld(w, |st.cells|, |h.dicts|, names, captured, parent);
      Extends(w, w', |st.cells|) && HeapRel(st', h', w')
      && d' == (if captured == {} then parent else At(|h.dicts|))
  {
    hide ValRel, AllRel, Elems, Distinct, Extends, DefineAll, Defines, ArgSlots, Nils, ShapesOf, HeapRel;
    FrameWorldExtends(names, captured, parent, st, h, w);
    CapturedNamesOccur(names, captured);
    DefinesNone(names, argCount, |pre|, captured, 0);
    if captured == {} {
      CellsGrow(st, h, w, argV + Nils(|names| - argCount));
    } else {
      OpenHeap(names, argCount, captured, parent, pre, argV, argF, st, h, w);
    }
  }

  /** The scope, environment and names of an activation. */
  function FrameSite(names: seq<string>, first: nat, captured: set<string>, ro: set<string>, outer: Scopes,
                     envOut: Env, free: set<string>, args: set<string>, iv: set<string>, k: nat, d: Link): Site {
    Site(Within(Scope(Number(names, first), captured, ro), outer), args, iv, Elems(names) + free,
         envOut + Number(names, k), d)
  }

  lemma FreeNameFound(x: string, envOut: Env, dOut: Link, names: seq<string>, captured: set<string>,
                      st: State, h: RHeap, w: World)
    requires HeapRel(st, h, w) && Distinct(names) && x !in Elems(names) && captured <= Elems(names)
    requires DictOk(x, envOut, dOut, w)
    ensures DictOk(x, envOut + Number(names, |st.cells|), if captured == {} then dOut else At(|h.dicts|),
                   FrameWorld(w, |st.cells|, |h.dicts|, names, captured, dOut))
  {
    var k := |st.cells|;
    var w' := FrameWorld(w, k, |h.dicts|, names, captured, dOut);
    FrameWorldExtends(names, captured, dOut, st, h, w);
    WorldBounds(st, h, w);
    NumberIs(names, k);
    DictOkMono(x, envOut, dOut, w, w', k);
  }

  lemma NewBinding(x: string, j: nat, names: seq<string>, captured: set<string>, parent: Link, st: State, h: RHeap, w: World)
    requires HeapRel(st, h, w) && j < |names| && names[j] == x && x in captured
    ensures var w' := FrameWorld(w, |st.cells|, |h.dicts|, names, captured, parent);
      |st.cells| + j in w'.mu && w'.mu[|st.cells| + j] == Loc(|h.dicts|, x)
      && Owner(w'.shapes, At(|h.dicts|), x) == At(|h.dicts|)
  {
    WorldBounds(st, h, w);
    assert |st.cells| + j in CapturedCells(names, |st.cells|, captured);
  }

  lemma OwnNameFound(x: string, envOut: Env, dOut: Link, names: seq<string>, captured: set<string>,
                     st: State, h: RHeap, w: World)
    requires HeapRel(st, h, w) && Distinct(names) && x in captured && captured <= Elems(names)
    ensures DictOk(x, envOut + Number(names, |st.cells|), At(|h.dicts|),
                   FrameWorld(w, |st.cells|, |h.dicts|, names, captured, dOut))
  {
    hide HeapRel, FrameWorld;
    var j := NumberAt(names, |st.cells|, 0, x);
    NewBinding(x, j, names, captured, dOut, st, h, w);
  }

  lemma NilRel(w: World)
    ensures ValRel(NilV, FNil, w)
  {
  }

  lemma OwnSlotFound(x: string, p: Site, names: seq<string>, captured: set<string>, pre: seq<RValue>,
                     argV: seq<Value>, argF: seq<RValue>, st: State, h: RHeap, w: World, d: Link, parent: Link)
    requires HeapRel(st, h, w) && Distinct(names) && |argV| <= |names| && AllRel(argV, argF, w)
    requires x in Elems(names) && x !in captured
    ensures var k := |st.cells|;
      var w' := FrameWorld(w, k, |h.dicts|, names, captured, parent);
      var cells := st.cells + (argV + Nils(|names| - |argV|));
      var c := Number(names, k)[x];
      c < |cells| && c !in w'.mu
      && ValRel(cells[c], ReadSlot(ArgSlots(pre + argF), Number(names, |pre|)[x]), w')
  {
    hide ValRel, Number, Owner, ShapesOf;
    var k := |st.cells|;
    var w' := FrameWorld(w, k, |h.dicts|, names, captured, parent);
    FrameWorldExtends(names, captured, parent, st, h, w);
    WorldBounds(st, h, w);
    var j := NumberAt(names, k, |pre|, x);
    ArgSlot(pre, argF, j);
    var cells := st.cells + (argV + Nils(|names| - |argV|));
    assert cells[k + j] == (argV + Nils(|names| - |argV|))[j];
    assert k + j !in CapturedCells(names, k, captured);
    if j < |argV| {
      ValRelMono(argV[j], argF[j], w, w', k);
    } else {
      NilRel(w');
    }
  }

  /** The frame of an activation is related to its cells, whatever it captures. */
  lemma OpenFrame(names: seq<string>, captured: set<string>, ro: set<string>, outer: Scopes, envOut: Env, dOut: Link,
                  free: set<string>, args: set<string>, iv: set<string>,
                  pre: seq<RValue>, argV: seq<Value>, argF: seq<RValue>, st: State, h: RHeap, w: World)
    returns (w': World)
    requires Distinct(names) && captured <= Elems(names) && |argV| <= |names|
    requires HeapRel(st, h, w) && AllRel(argV, argF, w)
    requires envOut.Keys == Bound(outer)
    requires forall x | x in free :: x !in Elems(names) && IsCaptured(outer, x) && DictOk(x, envOut, dOut, w)
    ensures var slots := ArgSlots(pre + argF);
      var (d', h') := OpenDict(h, dOut, Defines(names, |argV|, |pre|, captured, 0), slots);
      var st' := st.(cells := st.cells + (argV + Nils(|names| - |argV|)));
      var p := FrameSite(names, |pre|, captured, ro, outer, envOut, free, args, iv, |st.cells|, d');
      Extends(w, w', |st.cells|) && Rel(p, st', slots, h', w')
  {
    hide ValRel, HeapRel, DictOk, AllRel, Distinct, Owner, FrameWorld, Extends, ShapesOf, OpenDict, Defines, Nils, ArgSlots, IndexOf, Elems, Number, ReadSlot;
    var slots := ArgSlots(pre + argF);
    var (d', h') := OpenDict(h, dOut, Defines(names, |argV|, |pre|, captured, 0), slots);
    var k := |st.cells|;
    var st' := st.(cells := st.cells + (argV + Nils(|names| - |argV|)));
    var p := FrameSite(names, |pre|, captured, ro, outer, envOut, free, args, iv, k, d');
    OpenScope(names, |argV|, captured, dOut, pre, argV, argF, st, h, w);
    w' := FrameWorld(w, k, |h.dicts|, names, captured, dOut);
    NumberKeys(names, |pre|);
    NumberKeys(names, k);
    forall x | x in p.names && IsCaptured(p.sc, x) ensures DictOk(x, p.env, d', w') {
      if x in Elems(names) {
        OwnNameFound(x, envOut, dOut, names, captured, st, h, w);
      } else {
        FreeNameFound(x, envOut, dOut, names, captured, st, h, w);
      }
    }
    forall x | x in p.names && InOwnSlot(p.sc, x) ensures SlotOk(x, p.sc, p.env, st'.cells, slots, w') {
      OwnSlotFound(x, p, names, captured, pre, argV, argF, st, h, w, d', dOut);
    }
    forall x, y | x in p.names && y in p.names && x != y && InOwnSlot(p.sc, x) && InOwnSlot(p.sc, y)
      ensures p.env[x] != p.env[y]
    {
      var i := NumberAt(names, k, 0, x);
      var j := NumberAt(names, k, 0, y);
    }
  }

  // ----- Bodies compiled in line -----

  lemma ActivateNone(env: Env, st: State)
    ensures Activate(env, [], st) == env
    ensures st.cells + [] + Nils(0) == st.cells
  {
    assert Number([], |st.cells|) == map[];
  }

  lemma ActivateOne(env: Env, x: string, st: State)
    ensures Activate(env, [x] + [], st) == env[x := |st.cells|]
    ensures Elems([x] + []) == {x}
  {
    var names := [x] + [];
    assert names == [x];
    NumberIs(names, |st.cells|);
  }

  function LoopSite(p: Site, x: string, slot: nat, cell: nat): Site
    requires p.sc.Within?
  {
    Site(LoopScope(p.sc, x, slot), p.args + {x}, p.iv - {x}, p.names + {x}, p.env[x := cell], p.d)
  }

  lemma LoopNames(p: Site, x: string, slot: nat, y: string)
    requires p.sc.Within? && x != y
    ensures IsCaptured(LoopScope(p.sc, x, slot), y) == IsCaptured(p.sc, y)
    ensures InOwnSlot(LoopScope(p.sc, x, slot), y) == InOwnSlot(p.sc, y)
  {
  }

  /** Entering the body of an inlined to:do: with its counter at `i`. */
  lemma EnterLoop(p: Site, x: string, base: nat, n: nat, i: int, st: State, slots: RSlots, h: RHeap, w: World)
    requires SiteOk(p, base) && n >= base + 2 && Rel(p, st, slots, h, w) && ReadSlot(slots, base) == FInt(i)
    ensures var q := LoopSite(p, x, base, |st.cells|);
      SiteOk(q, n) && Rel(q, st.(cells := st.cells + [IntV(i)]), slots, h, w)
  {
    var k := |st.cells|;
    var q := LoopSite(p, x, base, k);
    var st' := st.(cells := st.cells + [IntV(i)]);
    CellsGrow(st, h, w, [IntV(i)]);
    WorldBounds(st, h, w);
    assert Bound(q.sc) == Bound(p.sc) + {x};
    forall y | y in q.names && IsCaptured(q.sc, y) ensures DictOk(y, q.env, p.d, w) {
      assert y != x;
      LoopNames(p, x, base, y);
      assert DictOk(y, p.env, p.d, w);
    }
    forall y | y in q.names && InOwnSlot(q.sc, y) ensures SlotOk(y, q.sc, q.env, st'.cells, slots, w) {
      if y != x {
        LoopNames(p, x, base, y);
        assert SlotOk(y, p.sc, p.env, st.cells, slots, w);
      }
    }
    forall y, z | y in q.names && z in q.names && y != z && InOwnSlot(q.sc, y) && InOwnSlot(q.sc, z)
      ensures q.env[y] != q.env[z]
    {
      if y != x { LoopNames(p, x, base, y); assert SlotOk(y, p.sc, p.env, st.cells, slots, w); }
      if z != x { LoopNames(p, x, base, z); assert SlotOk(z, p.sc, p.env, st.cells, slots, w); }
    }
  }

  lemma NotOwnInLoop(p: Site, x: string, base: nat, k: nat, c: nat)
    requires p.sc.Within? && c != k && !OwnCell(p, c)
    ensures !OwnCell(LoopSite(p, x, base, k), c)
  {
    var q := LoopSite(p, x, base, k);
    forall y | y in q.names && InOwnSlot(q.sc, y) && y in q.env ensures q.env[y] != c {
      if y != x { LoopNames(p, x, base, y); }
    }
  }

  /** The variable a loop variable hides keeps its cell and its slot out of the body's reach. */
  lemma LoopHides(p: Site, x: string, base: nat, st: State, slots: RSlots, w: World)
    requires ScopeOk(p.sc, base) && FrameRel(p.names, p.sc, p.env, p.d, st.cells, slots, w)
    requires x in p.names && InOwnSlot(p.sc, x)
    ensures var q := LoopSite(p, x, base, |st.cells|);
      !OwnCell(q, p.env[x]) && !Assignable(q.sc, p.sc.inner.slots[x])
  {
    var q := LoopSite(p, x, base, |st.cells|);
    assert SlotOk(x, p.sc, p.env, st.cells, slots, w);
    forall y | y in q.names && InOwnSlot(q.sc, y) && y in q.env ensures q.env[y] != p.env[x] {
      if y != x { LoopNames(p, x, base, y); }
    }
  }

  lemma LoopAssignable(p: Site, x: string, base: nat, k: nat)
    requires ScopeOk(p.sc, base)
    ensures forall s: nat | Assignable(LoopSite(p, x, base, k).sc, s) :: Assignable(p.sc, s) && s < base
  {
    var q := LoopSite(p, x, base, k);
    forall s: nat | Assignable(q.sc, s) ensures Assignable(p.sc, s) && s < base {
      var y :| y in q.sc.inner.slots && y !in q.sc.inner.args && q.sc.inner.slots[y] == s;
      assert y in p.sc.inner.slots && y !in p.sc.inner.args && p.sc.inner.slots[y] == s;
    }
  }

  lemma LeaveLoopSlot(p: Site, x: string, base: nat, n: nat, i: int, st: State, slots: RSlots, h: RHeap, w: World,
                      st2: State, slots2: RSlots, h2: RHeap, w2: World, v: RValue, y: string)
    requires SiteOk(p, base) && n >= base + 2 && Rel(p, st, slots, h, w)
    requires Post(LoopSite(p, x, base, |st.cells|), n, st.(cells := st.cells + [IntV(i)]), slots, w, st2, slots2, h2, w2)
    requires y in p.names && InOwnSlot(p.sc, y) && Extends(w, w2, |st.cells|)
    ensures SlotOk(y, p.sc, p.env, st2.cells, slots2[base := v], w2)
  {
    hide ValRel, HeapRel, DictOk;
    var q := LoopSite(p, x, base, |st.cells|);
    var st1 := st.(cells := st.cells + [IntV(i)]);
    assert SlotOk(y, p.sc, p.env, st.cells, slots, w);
    if y == x {
      LoopHides(p, x, base, st, slots, w);
      assert st2.cells[p.env[x]] == st1.cells[p.env[x]];
      assert ReadSlot(slots2, p.sc.inner.slots[x]) == ReadSlot(slots, p.sc.inner.slots[x]);
      ValRelMono(st.cells[p.env[x]], ReadSlot(slots, p.sc.inner.slots[x]), w, w2, |st.cells|);
    } else {
      LoopNames(p, x, base, y);
      assert SlotOk(y, q.sc, q.env, st2.cells, slots2, w2);
    }
  }

  /** After one iteration the enclosing frame is related again. */
  lemma LeaveLoopFrame(p: Site, x: string, base: nat, n: nat, i: int, st: State, slots: RSlots, h: RHeap, w: World,
                       st2: State, slots2: RSlots, h2: RHeap, w2: World, v: RValue)
    requires SiteOk(p, base) && n >= base + 2 && Rel(p, st, slots, h, w)
    requires Post(LoopSite(p, x, base, |st.cells|), n, st.(cells := st.cells + [IntV(i)]), slots, w, st2, slots2, h2, w2)
    ensures FrameRel(p.names, p.sc, p.env, p.d, st2.cells, slots2[base := v], w2)
    ensures Extends(w, w2, |st.cells|)
  {
    var k := |st.cells|;
    var q := LoopSite(p, x, base, k);
    var st1 := st.(cells := st.cells + [IntV(i)]);
    WorldBounds(st, h, w);
    assert Extends(w, w2, k);
    forall y | y in p.names && IsCaptured(p.sc, y) ensures DictOk(y, p.env, p.d, w2) {
      DictOkMono(y, p.env, p.d, w, w2, k);
    }
    forall y | y in p.names && InOwnSlot(p.sc, y) ensures SlotOk(y, p.sc, p.env, st2.cells, slots2[base := v], w2) {
      LeaveLoopSlot(p, x, base, n, i, st, slots, h, w, st2, slots2, h2, w2, v, y);
    }
  }

  /** One iteration leaves the enclosing frame as any code of that frame does, and leaves the
      counter and the bound alone. */
  lemma LeaveLoop(p: Site, x: string, base: nat, n: nat, i: int, st: State, slots: RSlots, h: RHeap, w: World,
                  st2: State, slots2: RSlots, h2: RHeap, w2: World, v: RValue)
    requires SiteOk(p, base) && n >= base + 2 && Rel(p, st, slots, h, w) && ReadSlot(slots, base) == FInt(i)
    requires Post(LoopSite(p, x, base, |st.cells|), n, st.(cells := st.cells + [IntV(i)]), slots, w, st2, slots2, h2, w2)
    ensures ReadSlot(slots2, base) == FInt(i) && ReadSlot(slots2, base + 1) == ReadSlot(slots, base + 1)
    ensures Post(p, base, st, slots, w, st2, slots2[base := v], h2, w2)
  {
    var k := |st.cells|;
    LeaveLoopFrame(p, x, base, n, i, st, slots, h, w, st2, slots2, h2, w2, v);
    LoopAssignable(p, x, base, k);
    var q := LoopSite(p, x, base, k);
    forall c | 0 <= c < k && c !in w.mu && !OwnCell(p, c) ensures st2.cells[c] == st.cells[c] {
      NotOwnInLoop(p, x, base, k, c);
    }
    forall s: nat | s < base && !Assignable(p.sc, s) ensures ReadSlot(slots2[base := v], s) == ReadSlot(slots, s) {
      assert !Assignable(q.sc, s);
      assert ReadSlot(slots2, s) == ReadSlot(slots, s);
    }
  }
}
