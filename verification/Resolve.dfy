/** Name resolution: which frame slot, captured name or instance variable each identifier of a
    method stands for. The result is a tree of resolved code, one `RBlock` per real block. */
module Resolve {
  import opened Syntax
  import opened Analysis

  /** One lexical scope being compiled: its slots, the names kept in its captured dictionary and
      its read-only names (arguments and the variables of the to:do: loops being inlined). */
  datatype Scope = Scope(slots: map<string, nat>, captured: set<string>, args: set<string>)

  /** The scope stack, innermost first; it ends at the method scope. */
  datatype Scopes = NoScope | Within(inner: Scope, outer: Scopes)

  datatype Place = InDict | InSlot(slot: nat) | InSelf | Undeclared

  predicate IsCaptured(sc: Scopes, x: string) {
    match sc
    case NoScope => false
    case Within(s, o) => x in s.captured || (x !in s.slots && IsCaptured(o, x))
  }

  /** The slot of the nearest scope that declares `x`, whichever frame that scope belongs to. */
  function ResolveLocal(sc: Scopes, x: string): Place {
    match sc
    case NoScope => Undeclared
    case Within(s, o) => if x in s.slots then InSlot(s.slots[x]) else ResolveLocal(o, x)
  }

  function Where(sc: Scopes, iv: set<string>, x: string): Place {
    if IsCaptured(sc, x) then InDict
    else if ResolveLocal(sc, x).InSlot? then ResolveLocal(sc, x)
    else if x in iv then InSelf
    else Undeclared
  }

  function Bound(sc: Scopes): set<string> {
    match sc
    case NoScope => {}
    case Within(s, o) => s.slots.Keys + Bound(o)
  }

  /** The names in scope whose variable lives in a slot. */
  function PlainOf(sc: Scopes): set<string> { set x | x in Bound(sc) && !IsCaptured(sc, x) }

  function IndexOf(names: seq<string>, x: string): (i: nat)
    requires x in names
    ensures i < |names| && names[i] == x
    ensures forall j :: 0 <= j < i ==> names[j] != x
  {
    if names[0] == x then 0 else 1 + IndexOf(names[1..], x)
  }

  /** Consecutive slots for a list of names. */
  function Number(names: seq<string>, base: nat): map<string, nat> {
    map x | x in Elems(names) :: base + IndexOf(names, x)
  }

  // ----- Resolved code -----

  /** A binding made when a captured dictionary is opened: an argument is copied from its slot,
      a temporary starts as nil. */
  datatype Define = Define(name: string, fromSlot: Source)
  datatype Source = FromSlot(slot: nat) | FromNil

  datatype RBlock = RBlock(argCount: nat, defines: seq<Define>, body: RExprs)

  datatype RExpr =
    | PushInt(n: int)
    | PushBool(b: bool)
    | PushNil
    | PushSelf
    | LoadLocal(slot: nat)
    | StoreLocal(slot: nat, value: RExpr)
    | LoadCaptured(name: string)
    | StoreCaptured(name: string, value: RExpr)
    | LoadInstVar(name: string)
    | StoreInstVar(name: string, value: RExpr)
    | Arith(op: BinOp, left: RExpr, right: RExpr)
    | SendMsg(sel: Selector, recv: RExpr, args: RExprs)
    | MakeBlock(blk: RBlock)
    | ReturnFromHome(value: RExpr)
    | Cond(sel: Selector, onTrue: bool, test: RExpr, body: RExprs)
    | CondElse(sel: Selector, test: RExpr, thn: RExprs, els: RExprs)
    | Loop(sel: Selector, onTrue: bool, guard: RExprs, body: RExprs)
    | CountLoop(slotI: nat, slotEnd: nat, start: RExpr, stop: RExpr, body: RExprs)

  datatype RExprs = RNil | RCons(head: RExpr, tail: RExprs)

  function Defines(names: seq<string>, argCount: nat, firstSlot: nat, captured: set<string>, i: nat): seq<Define>
    requires i <= |names|
    decreases |names| - i
  {
    if i == |names| then []
    else if names[i] in captured then
      [Define(names[i], if i < argCount then FromSlot(firstSlot + i) else FromNil)]
      + Defines(names, argCount, firstSlot, captured, i + 1)
    else Defines(names, argCount, firstSlot, captured, i + 1)
  }

  /** The scope a block literal opens. */
  function BlockScope(b: Node, iv: set<string>): Scope
    requires b.Block?
  {
    Scope(Number(Declared(b), 0), Captured(b, iv), Elems(b.params))
  }

  function ResolveBlock(b: Node, sc: Scopes, iv: set<string>): RBlock
    requires b.Block?
    decreases b, 2
  {
    var body := ResolveAll(b.body, Within(BlockScope(b, iv), sc), iv - Elems(Declared(b)), |Declared(b)|).0;
    RBlock(|b.params|, Defines(Declared(b), |b.params|, 0, Captured(b, iv), 0), body)
  }

  /** The scope inside an inlined to:do:: its variable is rebound to the counter slot, hiding a
      captured variable of the same name, and is read-only. */
  function LoopScope(sc: Scopes, x: string, slot: nat): Scopes
    requires sc.Within?
  {
    Within(Scope(sc.inner.slots[x := slot], sc.inner.captured - {x}, sc.inner.args + {x}), sc.outer)
  }

  /** Resolved code and the next free slot of the innermost scope. */
  function Resolved(n: Node, sc: Scopes, iv: set<string>, next: nat): (r: (RExpr, nat))
    requires sc.Within?
    ensures r.1 >= next
    decreases n, 3
  {
    match n
    case IntLit(k) => (PushInt(k), next)
    case BoolLit(b) => (PushBool(b), next)
    case NilLit => (PushNil, next)
    case SelfRef => (PushSelf, next)
    case Ident(x) =>
      (match Where(sc, iv, x)
       case InDict => LoadCaptured(x)
       case InSlot(s) => LoadLocal(s)
       case InSelf => LoadInstVar(x)
       case Undeclared => PushNil, next)
    case Assignment(x, v) =>
      var (value, next') := Resolved(v, sc, iv, next);
      (match Where(sc, iv, x)
       case InDict => StoreCaptured(x, value)
       case InSlot(s) => StoreLocal(s, value)
       case InSelf => StoreInstVar(x, value)
       case Undeclared => PushNil, if Where(sc, iv, x) == Undeclared then next else next')
    case Binary(op, l, r) =>
      var (left, n1) := Resolved(l, sc, iv, next);
      var (right, n2) := Resolved(r, sc, iv, n1);
      (Arith(op, left, right), n2)
    case Send(sel, r, a) =>
      if Inlined(n, iv) then ResolveInlined(n, sc, iv, next)
      else
        var (recv, n1) := Resolved(r, sc, iv, next);
        var (args, n2) := ResolveAll(a, sc, iv, n1);
        (SendMsg(sel, recv, args), n2)
    case Block(_, _, _) => (MakeBlock(ResolveBlock(n, sc, iv)), next)
    case Return(v) =>
      var (value, next') := Resolved(v, sc, iv, next);
      (ReturnFromHome(value), next')
  }

  function ResolveAll(ns: Nodes, sc: Scopes, iv: set<string>, next: nat): (r: (RExprs, nat))
    requires sc.Within?
    ensures r.1 >= next
    decreases ns, 1
  {
    match ns
    case NoNodes => (RNil, next)
    case More(h, t) =>
      var (head, n1) := Resolved(h, sc, iv, next);
      var (tail, n2) := ResolveAll(t, sc, iv, n1);
      (RCons(head, tail), n2)
  }

  function ResolveInlined(n: Node, sc: Scopes, iv: set<string>, next: nat): (r: (RExpr, nat))
    requires sc.Within? && Inlined(n, iv)
    ensures r.1 >= next
    decreases n, 2
  {
    match InlineShapeOf(n)
    case InlineIf =>
      var (test, n1) := Resolved(n.recv, sc, iv, next);
      var (body, n2) := ResolveAll(n.args.head.body, sc, iv, n1);
      (Cond(n.sel, n.sel == IfTrue, test, body), n2)
    case InlineIfElse =>
      var (test, n1) := Resolved(n.recv, sc, iv, next);
      var t := if n.sel == IfFalseIfTrue then n.args.tail.head else n.args.head;
      var f := if n.sel == IfFalseIfTrue then n.args.head else n.args.tail.head;
      var (thn, n2) := ResolveAll(t.body, sc, iv, n1);
      var (els, n3) := ResolveAll(f.body, sc, iv, n2);
      (CondElse(n.sel, test, thn, els), n3)
    case InlineWhile =>
      var (test, n1) := ResolveAll(n.recv.body, sc, iv, next);
      var (body, n2) := ResolveAll(n.args.head.body, sc, iv, n1);
      (Loop(n.sel, n.sel == WhileTrue, test, body), n2)
    case InlineToDo =>
      var b := ToDoBody(n);
      var x := b.params[0];
      var (start, n1) := Resolved(n.recv, sc, iv, next + 2);
      var (stop, n2) := Resolved(n.args.head, sc, iv, n1);
      var (body, n3) := ResolveAll(b.body, LoopScope(sc, x, next), iv - {x}, n2);
      (CountLoop(next, next + 1, start, stop, body), n3)
  }

  /** A method: slot 0 is self, then its arguments and temporaries. */
  function MethodScope(m: Method, ivars: set<string>): Scope {
    Scope(Number(m.params + m.temps, 1), MethodCaptured(m, ivars), Elems(m.params))
  }

  function ResolveMethod(m: Method, ivars: set<string>): RBlock {
    var names := m.params + m.temps;
    var body := ResolveAll(m.body, Within(MethodScope(m, ivars), NoScope), ivars - Elems(names), 1 + |names|).0;
    RBlock(1 + |m.params|, Defines(names, |m.params|, 1, MethodCaptured(m, ivars), 0), body)
  }
}
