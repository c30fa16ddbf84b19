/** How the cells of the reference meaning correspond to slots and captured dictionaries. */
module ClosureWorld {
  import opened Syntax
  import opened Analysis
  import opened Operands
  import opened Resolve
  import opened Reference
  import opened Frames

  datatype Loc = Loc(dict: nat, name: string)

  /** Which cells live in a dictionary, and where; and the shape of the dictionary heap. Every
      other cell is private to the frame that made it. `clean`: no block literal of the code uses a slot
      of an enclosing frame. */
  datatype World = World(mu: map<nat, Loc>, shapes: seq<Shape>, clean: bool)

  ghost predicate Sane(sc: Scopes) {
    match sc
    case NoScope => true
    case Within(s, o) => s.captured <= s.slots.Keys && Sane(o)
  }

  /** The chain starting at `d` finds the cell of `x` where the world says it is. */
  ghost predicate DictOk(x: string, env: Env, d: Link, w: World) {
    x in env && env[x] in w.mu && w.mu[env[x]].name == x
    && Owner(w.shapes, d, x) == At(w.mu[env[x]].dict)
  }

  ghost predicate CloRel(b: Node, env: Env, rb: RBlock, d: Link, sc: Scopes, args: set<string>, iv: set<string>, w: World) {
    && b.Block?
    && rb == ResolveBlock(b, sc, iv)
    && WellFormed(b, Bound(sc), args, iv)
    && (w.clean ==> Clean(b, PlainOf(sc), iv))
    && iv !! Bound(sc)
    && Sane(sc)
    && env.Keys == Bound(sc)
    && forall x | x in Inner(b, iv) :: IsCaptured(sc, x) && DictOk(x, env, d, w)
  }

  ghost predicate ValRel(v: Value, f: RValue, w: World) {
    match v
    case IntV(n) => f == FInt(n)
    case BoolV(b) => f == FBool(b)
    case NilV => f == FNil
    case SelfV => f == FSelf
    case BlockV(b, env) => f.Closure? && exists sc, args, iv :: CloRel(b, env, f.code, f.dict, sc, args, iv, w)
  }

  ghost predicate AllRel(vs: seq<Value>, fs: seq<RValue>, w: World) {
    |vs| == |fs| && forall i :: 0 <= i < |vs| ==> ValRel(vs[i], fs[i], w)
  }

  /** The operands a run that stops has in hand. Where the code is not clean, one may be a block literal
      compiled to read an enclosing frame's slot; then only this much is known of it. */
  ghost predicate OperandRel(v: Value, f: RValue, w: World) {
    ValRel(v, f, w) || (!w.clean && v.BlockV? && f.Closure?)
  }

  ghost predicate WhyRel(a: Why<Value>, b: Why<RValue>, w: World) {
    match a
    case Returned(v) => b.Returned? && ValRel(v, b.v, w)
    case Dnu(s, v) => b.Dnu? && b.sel == s && OperandRel(v, b.recv, w)
    case LoopNotBoolean(s, v) => b.Dnu? && b.sel == s && ValRel(v, b.recv, w)
    case NotInteger(l, r) => b.NotInteger? && OperandRel(l, b.left, w) && OperandRel(r, b.right, w)
    case NotABlock => b == NotABlock
    case WrongArgCount => b == WrongArgCount
    case NoDictionary => b == NoDictionary
  }

  ghost predicate CellOk(c: nat, st: State, h: RHeap, w: World)
    requires c in w.mu
  {
    var l := w.mu[c];
    c < |st.cells| && l.dict < |h.dicts| && l.name in h.dicts[l.dict].binds
    && ValRel(st.cells[c], h.dicts[l.dict].binds[l.name], w)
  }

  ghost predicate SelfRel(a: map<string, Value>, b: map<string, RValue>, w: World) {
    a.Keys == b.Keys && forall x | x in a :: ValRel(a[x], b[x], w)
  }

  ghost predicate HeapRel(st: State, h: RHeap, w: World) {
    && ShapesOf(h) == w.shapes
    && (forall c | c in w.mu :: CellOk(c, st, h, w))
    && (forall a, b | a in w.mu && b in w.mu && a != b :: w.mu[a] != w.mu[b])
    && SelfRel(st.self, h.self, w)
  }

  predicate InOwnSlot(sc: Scopes, x: string) {
    sc.Within? && x in sc.inner.slots && x !in sc.inner.captured
  }

  ghost predicate SlotOk(x: string, sc: Scopes, env: Env, cells: seq<Value>, slots: RSlots, w: World)
    requires InOwnSlot(sc, x)
  {
    x in env && env[x] < |cells| && env[x] !in w.mu
    && ValRel(cells[env[x]], ReadSlot(slots, sc.inner.slots[x]), w)
  }

  /** The running frame, for the names `names` its code may still use. */
  ghost predicate FrameRel(names: set<string>, sc: Scopes, env: Env, d: Link, cells: seq<Value>, slots: RSlots, w: World) {
    && sc.Within?
    && env.Keys == Bound(sc)
    && (forall x | x in names && IsCaptured(sc, x) :: DictOk(x, env, d, w))
    && (forall x | x in names && InOwnSlot(sc, x) :: SlotOk(x, sc, env, cells, slots, w))
    && (forall x, y | x in names && y in names && x != y && InOwnSlot(sc, x) && InOwnSlot(sc, y) :: env[x] != env[y])
  }

  ghost predicate ScopeOk(sc: Scopes, next: nat) {
    && sc.Within?
    && Sane(sc)
    && (forall x | x in sc.inner.slots :: sc.inner.slots[x] < next)
    && (forall x, y | x in sc.inner.slots && y in sc.inner.slots && x != y :: sc.inner.slots[x] != sc.inner.slots[y])
  }

  /** Code using the names `direct` itself, whose inner blocks need `inner`, resolves properly. */
  ghost predicate Usable(direct: set<string>, inner: set<string>, names: set<string>, sc: Scopes, iv: set<string>) {
    && (forall x | x in direct :: x in iv || (x in names && (IsCaptured(sc, x) || InOwnSlot(sc, x))))
    && (forall x | x in inner :: x in names && IsCaptured(sc, x))
  }

  /** Everything fixed about the place where a piece of code runs. */
  datatype Site = Site(sc: Scopes, args: set<string>, iv: set<string>, names: set<string>, env: Env, d: Link)

  ghost predicate SiteOk(p: Site, next: nat) {
    ScopeOk(p.sc, next) && p.sc.inner.args <= p.args && p.iv !! Bound(p.sc)
  }

  ghost predicate Rel(p: Site, st: State, slots: RSlots, h: RHeap, w: World) {
    HeapRel(st, h, w) && FrameRel(p.names, p.sc, p.env, p.d, st.cells, slots, w)
  }

  ghost predicate Extends(w: World, w': World, k: nat) {
    && w'.clean == w.clean && w.shapes <= w'.shapes
    && (forall c | c in w.mu :: c in w'.mu && w'.mu[c] == w.mu[c])
    && (forall c | c in w'.mu :: c in w.mu || c >= k)
  }

  ghost predicate OwnCell(p: Site, c: nat) {
    exists x :: x in p.names && InOwnSlot(p.sc, x) && x in p.env && p.env[x] == c
  }

  /** Cells a piece of code cannot reach keep their contents. */
  ghost predicate CellsKept(p: Site, w: World, cells: seq<Value>, cells': seq<Value>) {
    |cells| <= |cells'|
    && forall c | 0 <= c < |cells| && c !in w.mu && !OwnCell(p, c) :: cells'[c] == cells[c]
  }

  ghost predicate Assignable(sc: Scopes, s: nat)
    requires sc.Within?
  {
    exists x :: x in sc.inner.slots && x !in sc.inner.args && sc.inner.slots[x] == s
  }

  /** Slots no assignment of the scope names keep their contents: counters, bounds, arguments. */
  ghost predicate SlotsKept(sc: Scopes, next: nat, slots: RSlots, slots': RSlots)
    requires sc.Within?
  {
    forall s: nat | s < next && !Assignable(sc, s) :: ReadSlot(slots', s) == ReadSlot(slots, s)
  }

  // ----- Owner and growth -----

  lemma {:induction false} OwnerPrefix(a: seq<Shape>, b: seq<Shape>, d: Link, x: string)
    requires a <= b && Owner(a, d, x).At?
    ensures Owner(b, d, x) == Owner(a, d, x)
    decreases if d.At? then d.id + 1 else 0
  {
    if x !in a[d.id].names {
      OwnerPrefix(a, b, a[d.id].parent, x);
    }
  }

  lemma DictOkMono(x: string, env: Env, d: Link, w: World, w': World, k: nat)
    requires DictOk(x, env, d, w) && Extends(w, w', k)
    ensures DictOk(x, env, d, w')
  {
    OwnerPrefix(w.shapes, w'.shapes, d, x);
  }

  lemma ValRelMono(v: Value, f: RValue, w: World, w': World, k: nat)
    requires ValRel(v, f, w) && Extends(w, w', k)
    ensures ValRel(v, f, w')
  {
    if v.BlockV? {
      var sc, args, iv :| CloRel(v.block, v.env, f.code, f.dict, sc, args, iv, w);
      forall x | x in Inner(v.block, iv) ensures DictOk(x, v.env, f.dict, w') {
        DictOkMono(x, v.env, f.dict, w, w', k);
      }
      assert CloRel(v.block, v.env, f.code, f.dict, sc, args, iv, w');
    }
  }

  lemma AllRelMono(vs: seq<Value>, fs: seq<RValue>, w: World, w': World, k: nat)
    requires AllRel(vs, fs, w) && Extends(w, w', k)
    ensures AllRel(vs, fs, w')
  {
    forall i | 0 <= i < |vs| ensures ValRel(vs[i], fs[i], w') { ValRelMono(vs[i], fs[i], w, w', k); }
  }

  lemma ExtendsTrans(a: World, b: World, c: World, k: nat, l: nat)
    requires Extends(a, b, k) && Extends(b, c, l) && k <= l
    ensures Extends(a, c, k)
  {
  }

  lemma CapturedIsBound(sc: Scopes, x: string)
    requires Sane(sc) && IsCaptured(sc, x)
    ensures x in Bound(sc)
  {
  }

  /** What `Where` answers for a name the code may use. */
  lemma WhereIs(x: string, p: Site, next: nat)
    requires SiteOk(p, next)
    ensures x in p.iv ==> Where(p.sc, p.iv, x) == InSelf && x !in Bound(p.sc)
    ensures IsCaptured(p.sc, x) ==> Where(p.sc, p.iv, x) == InDict
    ensures InOwnSlot(p.sc, x) ==> Where(p.sc, p.iv, x) == InSlot(p.sc.inner.slots[x]) && !IsCaptured(p.sc, x)
  {
    if IsCaptured(p.sc, x) { CapturedIsBound(p.sc, x); }
    if x !in Bound(p.sc) { NotBoundNotLocal(p.sc, x); }
  }

  lemma NotBoundNotLocal(sc: Scopes, x: string)
    requires x !in Bound(sc)
    ensures ResolveLocal(sc, x) == Undeclared
  {
  }

  lemma NumberIs(names: seq<string>, base: nat)
    requires Distinct(names)
    ensures Number(names, base).Keys == Elems(names)
    ensures forall i :: 0 <= i < |names| ==> names[i] in Number(names, base) && Number(names, base)[names[i]] == base + i
  {
    forall i | 0 <= i < |names| ensures names[i] in Number(names, base) && Number(names, base)[names[i]] == base + i {
      assert IndexOf(names, names[i]) == i;
    }
  }

  // ----- Steps of a frame -----

  ghost predicate Post(p: Site, next: nat, st: State, slots: RSlots, w: World,
                       st': State, slots': RSlots, h': RHeap, w': World)
    requires p.sc.Within?
  {
    && Rel(p, st', slots', h', w')
    && Extends(w, w', |st.cells|)
    && CellsKept(p, w, st.cells, st'.cells)
    && SlotsKept(p.sc, next, slots, slots')
  }

  /** The two evaluations of the same code agree. */
  ghost predicate Agree(r: Result, f: FResult, p: Site, next: nat, st: State, slots: RSlots, w: World, w': World)
    requires p.sc.Within?
  {
    match r
    case Val(v, st') => f.FVal? && ValRel(v, f.v, w') && Post(p, next, st, slots, w, st', f.slots, f.heap, w')
    case Vals(vs, st') => f.FVals? && AllRel(vs, f.vs, w') && Post(p, next, st, slots, w, st', f.slots, f.heap, w')
    case Stop(why, st') => f.FStop? && WhyRel(why, f.why, w') && HeapRel(st', f.heap, w') && w'.clean == w.clean
    case Timeout => f.FTimeout?
  }

  lemma PostTrans(p: Site, n0: nat, n1: nat, st0: State, s0: RSlots, w0: World,
                  st1: State, s1: RSlots, h1: RHeap, w1: World,
                  st2: State, s2: RSlots, h2: RHeap, w2: World)
    requires p.sc.Within? && n0 <= n1
    requires Post(p, n0, st0, s0, w0, st1, s1, h1, w1)
    requires Post(p, n1, st1, s1, w1, st2, s2, h2, w2)
    ensures Post(p, n0, st0, s0, w0, st2, s2, h2, w2)
  {
    ExtendsTrans(w0, w1, w2, |st0.cells|, |st1.cells|);
    forall c | 0 <= c < |st0.cells| && c !in w0.mu && !OwnCell(p, c)
      ensures st2.cells[c] == st0.cells[c]
    {
      assert c !in w1.mu;
      assert st1.cells[c] == st0.cells[c];
    }
    forall s: nat | s < n0 && !Assignable(p.sc, s) ensures ReadSlot(s2, s) == ReadSlot(s0, s) {
      assert ReadSlot(s1, s) == ReadSlot(s0, s);
    }
  }

  /** A frame relation survives whatever another activation does. */
  lemma FrameKept(p: Site, cells: seq<Value>, slots: RSlots, w: World, cells': seq<Value>, w': World)
    requires FrameRel(p.names, p.sc, p.env, p.d, cells, slots, w)
    requires Extends(w, w', |cells|) && |cells| <= |cells'|
    requires forall c | 0 <= c < |cells| && c !in w.mu :: cells'[c] == cells[c]
    ensures FrameRel(p.names, p.sc, p.env, p.d, cells', slots, w')
  {
    forall x | x in p.names && IsCaptured(p.sc, x) ensures DictOk(x, p.env, p.d, w') {
      DictOkMono(x, p.env, p.d, w, w', |cells|);
    }
    forall x | x in p.names && InOwnSlot(p.sc, x) ensures SlotOk(x, p.sc, p.env, cells', slots, w') {
      assert SlotOk(x, p.sc, p.env, cells, slots, w);
      ValRelMono(cells[p.env[x]], ReadSlot(slots, p.sc.inner.slots[x]), w, w', |cells|);
    }
  }

  lemma ReadVar(x: string, p: Site, next: nat, st: State, slots: RSlots, h: RHeap, w: World)
    requires SiteOk(p, next) && Rel(p, st, slots, h, w)
    requires Usable({x}, {}, p.names, p.sc, p.iv)
    ensures ValRel(if x in p.env then ReadCell(st, p.env[x]) else ReadInstVar(st, x),
                   match Where(p.sc, p.iv, x)
                   case InDict => ReadCaptured(h, p.d, x)
                   case InSlot(s) => ReadSlot(slots, s)
                   case InSelf => ReadSelf(h, x)
                   case Undeclared => FNil, w)
  {
    WhereIs(x, p, next);
    assert x in {x};
    if x in p.iv {
      assert x !in p.env;
    } else if IsCaptured(p.sc, x) {
      assert DictOk(x, p.env, p.d, w);
      assert CellOk(p.env[x], st, h, w);
    } else {
      assert SlotOk(x, p.sc, p.env, st.cells, slots, w);
    }
  }

  lemma WriteSlotVar(x: string, v: Value, f: RValue, p: Site, next: nat, st: State, slots: RSlots, h: RHeap, w: World)
    requires SiteOk(p, next) && Rel(p, st, slots, h, w) && ValRel(v, f, w)
    requires x in p.names && InOwnSlot(p.sc, x) && x !in p.sc.inner.args
    ensures x in p.env
    ensures Post(p, next, st, slots, w, WriteCell(st, p.env[x], v), slots[p.sc.inner.slots[x] := f], h, w)
  {
    assert SlotOk(x, p.sc, p.env, st.cells, slots, w);
    var c, s := p.env[x], p.sc.inner.slots[x];
    var st', slots' := WriteCell(st, c, v), slots[s := f];
    forall k | k in w.mu ensures CellOk(k, st', h, w) { assert CellOk(k, st, h, w); }
    forall y | y in p.names && InOwnSlot(p.sc, y) ensures SlotOk(y, p.sc, p.env, st'.cells, slots', w) {
      assert SlotOk(y, p.sc, p.env, st.cells, slots, w);
    }
    assert OwnCell(p, c);
    assert Assignable(p.sc, s);
  }

  lemma WriteDictVar(x: string, v: Value, f: RValue, p: Site, next: nat, st: State, slots: RSlots, h: RHeap, w: World)
    requires SiteOk(p, next) && Rel(p, st, slots, h, w) && ValRel(v, f, w)
    requires x in p.names && IsCaptured(p.sc, x)
    ensures x in p.env && HasDict(h, p.d)
    ensures Post(p, next, st, slots, w, WriteCell(st, p.env[x], v), slots, WriteCaptured(h, p.d, x, f), w)
  {
    hide ValRel, ScopeOk;
    assert DictOk(x, p.env, p.d, w);
    var c := p.env[x];
    assert CellOk(c, st, h, w);
    var st', h' := WriteCell(st, c, v), WriteCaptured(h, p.d, x, f);
    var id := w.mu[c].dict;
    assert h' == BindIn(h, id, x, f);
    assert h.dicts[id].binds[x := f].Keys == h.dicts[id].binds.Keys;
    assert ShapesOf(h') == ShapesOf(h);
    forall k | k in w.mu ensures CellOk(k, st', h', w) {
      assert CellOk(k, st, h, w);
      if k != c { assert w.mu[k] != w.mu[c]; }
    }
    forall y | y in p.names && InOwnSlot(p.sc, y) ensures SlotOk(y, p.sc, p.env, st'.cells, slots, w) {
      assert SlotOk(y, p.sc, p.env, st.cells, slots, w);
    }
  }

  lemma WriteSelfVar(x: string, v: Value, f: RValue, p: Site, next: nat, st: State, slots: RSlots, h: RHeap, w: World)
    requires p.sc.Within? && Rel(p, st, slots, h, w) && ValRel(v, f, w)
    ensures Post(p, next, st, slots, w, st.(self := st.self[x := v]), slots, h.(self := h.self[x := f]), w)
  {
    var st', h' := st.(self := st.self[x := v]), h.(self := h.self[x := f]);
    assert ShapesOf(h') == ShapesOf(h);
    forall k | k in w.mu ensures CellOk(k, st', h', w) { assert CellOk(k, st, h, w); }
  }
}
