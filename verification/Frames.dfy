/** The meaning of resolved code: each activation has slots of its own and reaches captured
    variables through a chain of dictionaries. The code of a closure is a parameter: resolved
    blocks here, bytecode modules in the engine. */
module Frames {
  import opened Syntax
  import opened Resolve
  import opened Reference

  datatype Link = NoDict | At(id: nat)

  datatype FValue<C> = FInt(n: int) | FBool(b: bool) | FNil | FSelf | Closure(code: C, dict: Link)

  datatype Dict<C> = Dict(parent: Link, binds: map<string, FValue<C>>)

  datatype Heap<C> = Heap(dicts: seq<Dict<C>>, self: map<string, FValue<C>>)

  type Slots<C> = map<nat, FValue<C>>

  /** The part of a dictionary that no store changes. */
  datatype Shape = Shape(parent: Link, names: set<string>)

  function ShapesOf<C>(h: Heap<C>): (s: seq<Shape>)
    ensures |s| == |h.dicts|
    ensures forall i :: 0 <= i < |s| ==> s[i] == Shape(h.dicts[i].parent, h.dicts[i].binds.Keys)
  {
    seq(|h.dicts|, i requires 0 <= i < |h.dicts| => Shape(h.dicts[i].parent, h.dicts[i].binds.Keys))
  }

  /** The innermost dictionary up the parent chain that binds `x`. Parents are older. */
  function Owner(shapes: seq<Shape>, d: Link, x: string): (o: Link)
    ensures o.At? ==> o.id < |shapes| && x in shapes[o.id].names
    decreases if d.At? then d.id + 1 else 0
  {
    if d.NoDict? || d.id >= |shapes| then NoDict
    else if x in shapes[d.id].names then d
    else if shapes[d.id].parent.At? && shapes[d.id].parent.id < d.id then Owner(shapes, shapes[d.id].parent, x)
    else NoDict
  }

  function ReadSlot<C>(s: Slots<C>, i: nat): FValue<C> { if i in s then s[i] else FNil }

  function ReadSelf<C>(h: Heap<C>, x: string): FValue<C> { if x in h.self then h.self[x] else FNil }

  /** PUSH_CAPTURED: nil when no dictionary of the chain binds the name. */
  function ReadCaptured<C>(h: Heap<C>, d: Link, x: string): FValue<C> {
    var o := Owner(ShapesOf(h), d, x);
    if o.At? then h.dicts[o.id].binds[x] else FNil
  }

  function BindIn<C>(h: Heap<C>, id: nat, x: string, v: FValue<C>): Heap<C>
    requires id < |h.dicts|
  {
    h.(dicts := h.dicts[id := h.dicts[id].(binds := h.dicts[id].binds[x := v])])
  }

  /** STORE_CAPTURED: writes the dictionary that owns the name, or the frame's own. */
  function WriteCaptured<C>(h: Heap<C>, d: Link, x: string, v: FValue<C>): Heap<C>
    requires d.At? && d.id < |h.dicts|
  {
    var o := Owner(ShapesOf(h), d, x);
    BindIn(h, if o.At? then o.id else d.id, x, v)
  }

  predicate HasDict<C>(h: Heap<C>, d: Link) { d.At? && d.id < |h.dicts| }

  function FCompute<C>(op: BinOp, a: int, b: int): FValue<C> {
    match op
    case Add => FInt(a + b)
    case Sub => FInt(a - b)
    case Le => FBool(a <= b)
    case Lt => FBool(a < b)
    case Ge => FBool(a >= b)
    case Gt => FBool(a > b)
  }

  function ArgSlots<C>(args: seq<FValue<C>>): Slots<C> { map i: nat | i < |args| :: args[i] }

  function SourceValue<C>(slots: Slots<C>, s: Source): FValue<C> {
    match s
    case FromSlot(i) => ReadSlot(slots, i)
    case FromNil => FNil
  }

  /** DEFINE_CAPTURED for each entry of the prologue, in order. */
  function DefineAll<C>(binds: map<string, FValue<C>>, defines: seq<Define>, slots: Slots<C>, i: nat): map<string, FValue<C>>
    requires i <= |defines|
    decreases |defines| - i
  {
    if i == |defines| then binds
    else DefineAll(binds[defines[i].name := SourceValue(slots, defines[i].fromSlot)], defines, slots, i + 1)
  }

  /** The capture prologue: a fresh dictionary when the scope captures anything. */
  function OpenDict<C>(h: Heap<C>, parent: Link, defines: seq<Define>, slots: Slots<C>): (Link, Heap<C>) {
    if defines == [] then (parent, h)
    else (At(|h.dicts|), h.(dicts := h.dicts + [Dict(parent, DefineAll(map[], defines, slots, 0))]))
  }

  // ----- Evaluation of resolved code -----

  type RValue = FValue<RBlock>
  type RHeap = Heap<RBlock>
  type RSlots = Slots<RBlock>

  datatype FResult =
    | FVal(v: RValue, slots: RSlots, heap: RHeap)
    | FVals(vs: seq<RValue>, slots: RSlots, heap: RHeap)
    | FStop(why: Why<RValue>, heap: RHeap)
    | FTimeout

  function Exec(e: RExpr, d: Link, slots: RSlots, h: RHeap, fuel: nat): (r: FResult)
    ensures !r.FVals?
    decreases fuel, 2, e, 1
  {
    match e
    case PushInt(n) => FVal(FInt(n), slots, h)
    case PushBool(b) => FVal(FBool(b), slots, h)
    case PushNil => FVal(FNil, slots, h)
    case PushSelf => FVal(FSelf, slots, h)
    case LoadLocal(i) => FVal(ReadSlot(slots, i), slots, h)
    case StoreLocal(i, v) =>
      var r := Exec(v, d, slots, h, fuel);
      if !r.FVal? then r else FVal(r.v, r.slots[i := r.v], r.heap)
    case LoadCaptured(x) => FVal(ReadCaptured(h, d, x), slots, h)
    case StoreCaptured(x, v) =>
      var r := Exec(v, d, slots, h, fuel);
      if !r.FVal? then r
      else if !HasDict(r.heap, d) then FStop(NoDictionary, r.heap)
      else FVal(r.v, r.slots, WriteCaptured(r.heap, d, x, r.v))
    case LoadInstVar(x) => FVal(ReadSelf(h, x), slots, h)
    case StoreInstVar(x, v) =>
      var r := Exec(v, d, slots, h, fuel);
      if !r.FVal? then r else FVal(r.v, r.slots, r.heap.(self := r.heap.self[x := r.v]))
    case Arith(op, l, r) =>
      var a := Exec(l, d, slots, h, fuel);
      if !a.FVal? then a
      else
        var b := Exec(r, d, a.slots, a.heap, fuel);
        if !b.FVal? then b
        else if a.v.FInt? && b.v.FInt? then FVal(FCompute(op, a.v.n, b.v.n), b.slots, b.heap)
        else FStop(NotInteger(a.v, b.v), b.heap)
    case SendMsg(sel, recv, args) =>
      var r := Exec(recv, d, slots, h, fuel);
      if !r.FVal? then r
      else
        var a := ExecArgs(args, d, r.slots, r.heap, fuel);
        if !a.FVals? then a
        else
          var s := FApply(sel, r.v, a.vs, a.heap, fuel);
          if s.FVal? then FVal(s.v, a.slots, s.heap) else s
    case MakeBlock(blk) => FVal(Closure(blk, d), slots, h)
    case ReturnFromHome(v) =>
      var r := Exec(v, d, slots, h, fuel);
      if !r.FVal? then r else FStop(Returned(r.v), r.heap)
    case Cond(sel, onTrue, test, body) =>
      var t := Exec(test, d, slots, h, fuel);
      if !t.FVal? then t
      else if !t.v.FBool? then FStop(Dnu(sel, t.v), t.heap)
      else if t.v.b == onTrue then ExecInline(body, d, t.slots, t.heap, fuel)
      else FVal(FNil, t.slots, t.heap)
    case CondElse(sel, test, thn, els) =>
      var t := Exec(test, d, slots, h, fuel);
      if !t.FVal? then t
      else if !t.v.FBool? then FStop(Dnu(sel, t.v), t.heap)
      else if t.v.b then ExecInline(thn, d, t.slots, t.heap, fuel)
      else ExecInline(els, d, t.slots, t.heap, fuel)
    case Loop(_, _, _, _) => ExecLoop(e, d, slots, h, fuel)
    case CountLoop(slotI, slotEnd, start, stop, _) =>
      var a := Exec(start, d, slots, h, fuel);
      if !a.FVal? then a
      else
        var b := Exec(stop, d, a.slots[slotI := a.v], a.heap, fuel);
        if !b.FVal? then b
        else ExecCount(e, a.v, d, b.slots[slotEnd := b.v], b.heap, fuel)
  }

  function ExecArgs(es: RExprs, d: Link, slots: RSlots, h: RHeap, fuel: nat): (r: FResult)
    ensures !r.FVal?
    decreases fuel, 2, es, 0
  {
    match es
    case RNil => FVals([], slots, h)
    case RCons(e, t) =>
      var a := Exec(e, d, slots, h, fuel);
      if !a.FVal? then a
      else
        var rest := ExecArgs(t, d, a.slots, a.heap, fuel);
        if !rest.FVals? then rest else FVals([a.v] + rest.vs, rest.slots, rest.heap)
  }

  function ExecBody(es: RExprs, d: Link, slots: RSlots, h: RHeap, fuel: nat): (r: FResult)
    ensures !r.FVals?
    decreases fuel, 2, es, 0
  {
    match es
    case RNil => FVal(FNil, slots, h)
    case RCons(e, t) =>
      var a := Exec(e, d, slots, h, fuel);
      if t.RNil? || !a.FVal? then a else ExecBody(t, d, a.slots, a.heap, fuel)
  }

  /** A body compiled in line costs what the call it replaces costs. */
  function ExecInline(es: RExprs, d: Link, slots: RSlots, h: RHeap, fuel: nat): (r: FResult)
    ensures !r.FVals?
    decreases fuel, 1
  {
    if fuel == 0 then FTimeout else ExecBody(es, d, slots, h, fuel - 1)
  }

  function ExecLoop(e: RExpr, d: Link, slots: RSlots, h: RHeap, fuel: nat): (r: FResult)
    requires e.Loop?
    ensures !r.FVals?
    decreases fuel, 2, e, 0
  {
    if fuel == 0 then FTimeout
    else
      var c := ExecInline(e.guard, d, slots, h, fuel - 1);
      if !c.FVal? then c
      else if !c.v.FBool? then FStop(Dnu(e.sel, c.v), c.heap)
      else if c.v.b != e.onTrue then FVal(FNil, c.slots, c.heap)
      else
        var b := ExecInline(e.body, d, c.slots, c.heap, fuel - 1);
        if !b.FVal? then b else ExecLoop(e, d, b.slots, b.heap, fuel - 1)
  }

  function ExecCount(e: RExpr, start: RValue, d: Link, slots: RSlots, h: RHeap, fuel: nat): (r: FResult)
    requires e.CountLoop?
    ensures !r.FVals?
    decreases fuel, 2, e, 0
  {
    var i := ReadSlot(slots, e.slotI);
    var stop := ReadSlot(slots, e.slotEnd);
    if !i.FInt? || !stop.FInt? then FStop(NotInteger(i, stop), h)
    else if i.n > stop.n then FVal(start, slots, h)
    else if fuel == 0 then FTimeout
    else
      var b := ExecInline(e.body, d, slots, h, fuel - 1);
      if !b.FVal? then b
      else
        var j := ReadSlot(b.slots, e.slotI);
        if !j.FInt? then FStop(NotInteger(j, FInt(1)), b.heap)
        else ExecCount(e, start, d, b.slots[e.slotI := FInt(j.n + 1)], b.heap, fuel - 1)
  }

  function FCall(f: RValue, args: seq<RValue>, h: RHeap, fuel: nat): (r: FResult)
    ensures !r.FVals?
    decreases fuel, 0
  {
    if !f.Closure? then FStop(NotABlock, h)
    else if |args| != f.code.argCount then FStop(WrongArgCount, h)
    else if fuel == 0 then FTimeout
    else
      var (d, h') := OpenDict(h, f.dict, f.code.defines, ArgSlots(args));
      ExecBody(f.code.body, d, ArgSlots(args), h', fuel - 1)
  }

  function FApply(sel: Selector, recv: RValue, args: seq<RValue>, h: RHeap, fuel: nat): (r: FResult)
    ensures !r.FVals?
    decreases fuel, 1
  {
    match (sel, recv)
    case (Value(k), Closure(_, _)) =>
      if k == |args| <= 4 then FCall(recv, args, h, fuel) else FStop(Dnu(sel, recv), h)
    case (IfTrue, FBool(b)) =>
      if |args| != 1 then FStop(Dnu(sel, recv), h)
      else if b then FCall(args[0], [], h, fuel) else FVal(FNil, map[], h)
    case (IfFalse, FBool(b)) =>
      if |args| != 1 then FStop(Dnu(sel, recv), h)
      else if b then FVal(FNil, map[], h) else FCall(args[0], [], h, fuel)
    case (IfTrueIfFalse, FBool(b)) =>
      if |args| != 2 then FStop(Dnu(sel, recv), h)
      else FCall(if b then args[0] else args[1], [], h, fuel)
    case (IfFalseIfTrue, FBool(b)) =>
      if |args| != 2 then FStop(Dnu(sel, recv), h)
      else FCall(if b then args[1] else args[0], [], h, fuel)
    case (WhileTrue, Closure(_, _)) =>
      if |args| != 1 then FStop(Dnu(sel, recv), h) else FWhile(sel, recv, args[0], h, fuel)
    case (WhileFalse, Closure(_, _)) =>
      if |args| != 1 then FStop(Dnu(sel, recv), h) else FWhile(sel, recv, args[0], h, fuel)
    case (ToDo, _) =>
      if |args| != 2 then FStop(Dnu(sel, recv), h)
      else if !recv.FInt? || !args[0].FInt? then FStop(NotInteger(recv, args[0]), h)
      else FCount(recv.n, recv.n, args[0].n, args[1], h, fuel)
    case _ => FStop(Dnu(sel, recv), h)
  }

  function FWhile(sel: Selector, cond: RValue, body: RValue, h: RHeap, fuel: nat): (r: FResult)
    ensures !r.FVals?
    decreases fuel, 0
  {
    if fuel == 0 then FTimeout
    else
      var c := FCall(cond, [], h, fuel - 1);
      if !c.FVal? then c
      else if (c.v == FBool(true)) != (sel == WhileTrue) then FVal(FNil, map[], c.heap)
      else
        var b := FCall(body, [], c.heap, fuel - 1);
        if !b.FVal? then b else FWhile(sel, cond, body, b.heap, fuel - 1)
  }

  function FCount(start: int, i: int, stop: int, body: RValue, h: RHeap, fuel: nat): (r: FResult)
    ensures !r.FVals?
    decreases fuel, 0
  {
    if i > stop then FVal(FInt(start), map[], h)
    else if fuel == 0 then FTimeout
    else
      var b := FCall(body, [FInt(i)], h, fuel - 1);
      if !b.FVal? then b else FCount(start, i + 1, stop, body, b.heap, fuel - 1)
  }

  /** Run a resolved method; falling off its end answers self. */
  function FRun(m: RBlock, args: seq<RValue>, self: map<string, RValue>, fuel: nat): FResult {
    var slots := ArgSlots([FSelf] + args);
    var (d, h) := OpenDict(Heap([], self), NoDict, m.defines, slots);
    var r := ExecBody(m.body, d, slots, h, fuel);
    if r.FVal? then FStop(Returned(FSelf), r.heap) else r
  }
}
