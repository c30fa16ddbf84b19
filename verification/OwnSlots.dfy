/** Does the code of a block ever name a frame slot of the method or block around it? A slot number
    says nothing about whose slot it is; but code that names none of an enclosing frame's slots is the
    same however the enclosing scopes number theirs. */
module OwnSlots {
  import opened Syntax
  import opened Analysis
  import opened Operands
  import opened Resolve

  /** The same scopes, but for the numbers of their slots. */
  predicate SameNames(a: Scopes, b: Scopes) {
    match (a, b)
    case (NoScope, NoScope) => true
    case (Within(s, o), Within(t, q)) =>
      s.slots.Keys == t.slots.Keys && s.captured == t.captured && s.args == t.args && SameNames(o, q)
    case _ => false
  }

  /** No PUSH_LOCAL or STORE_LOCAL of the block names a slot of a frame around it. */
  ghost predicate OwnBlock(b: Node, sc: Scopes, iv: set<string>)
    requires b.Block?
  {
    forall q | SameNames(sc, q) :: ResolveBlock(b, q, iv) == ResolveBlock(b, sc, iv)
  }

  /** Every block that this code makes a closure of, at any depth, names slots of its own only. */
  ghost predicate OwnSlots(n: Node, sc: Scopes, iv: set<string>)
    requires sc.Within?
    decreases n, 3
  {
    match n
    case Assignment(_, v) => OwnSlots(v, sc, iv)
    case Binary(_, l, r) => OwnSlots(l, sc, iv) && OwnSlots(r, sc, iv)
    case Send(_, r, a) =>
      if Inlined(n, iv) then OwnInlined(n, sc, iv) else OwnSlots(r, sc, iv) && AllOwnSlots(a, sc, iv)
    case Block(_, _, _) =>
      OwnBlock(n, sc, iv) && AllOwnSlots(n.body, Within(BlockScope(n, iv), sc), iv - Elems(Declared(n)))
    case Return(v) => OwnSlots(v, sc, iv)
    case _ => true
  }

  ghost predicate AllOwnSlots(ns: Nodes, sc: Scopes, iv: set<string>)
    requires sc.Within?
    decreases ns, 0
  {
    match ns
    case NoNodes => true
    case More(h, t) => OwnSlots(h, sc, iv) && AllOwnSlots(t, sc, iv)
  }

  ghost predicate OwnInlined(n: Node, sc: Scopes, iv: set<string>)
    requires sc.Within? && Inlined(n, iv)
    decreases n, 2
  {
    match InlineShapeOf(n)
    case InlineIf => OwnSlots(n.recv, sc, iv) && AllOwnSlots(n.args.head.body, sc, iv)
    case InlineIfElse =>
      OwnSlots(n.recv, sc, iv) && AllOwnSlots(n.args.head.body, sc, iv) && AllOwnSlots(n.args.tail.head.body, sc, iv)
    case InlineWhile => AllOwnSlots(n.recv.body, sc, iv) && AllOwnSlots(n.args.head.body, sc, iv)
    case InlineToDo =>
      var b := ToDoBody(n);
      var x := b.params[0];
      OwnSlots(n.recv, sc, iv) && OwnSlots(n.args.head, sc, iv) && AllOwnSlots(b.body, LoopScope(sc, x, 0), iv - {x})
  }

  ghost predicate OwnMethod(m: Method, ivars: set<string>) {
    AllOwnSlots(m.body, Within(MethodScope(m, ivars), NoScope), ivars - Elems(m.params + m.temps))
  }

  // ----- Scopes -----

  lemma {:induction false} SameIsSame(a: Scopes, b: Scopes, x: string)
    requires SameNames(a, b)
    ensures Bound(a) == Bound(b) && IsCaptured(a, x) == IsCaptured(b, x)
    ensures ResolveLocal(a, x).InSlot? == ResolveLocal(b, x).InSlot? == (x in Bound(a))
    ensures !ResolveLocal(a, x).InSlot? ==> ResolveLocal(a, x) == ResolveLocal(b, x) == Undeclared
  {
    if a.Within? { SameIsSame(a.outer, b.outer, x); }
  }

  predicate Steady(x: string, a: Scopes, b: Scopes, iv: set<string>) { Where(a, iv, x) == Where(b, iv, x) }

  ghost predicate AllSteady(names: set<string>, a: Scopes, b: Scopes, iv: set<string>) {
    forall x | x in names :: Steady(x, a, b, iv)
  }

  /** Inside a block literal the names it declares are its own; any other is where it was. */
  lemma InsideBlock(b: Node, sc: Scopes, iv: set<string>, x: string)
    requires b.Block?
    ensures var own, inner := Elems(Declared(b)), Within(BlockScope(b, iv), sc);
      if x in own then Where(inner, iv - own, x) == if x in Captured(b, iv) then InDict else InSlot(BlockScope(b, iv).slots[x])
      else Where(inner, iv - own, x) == Where(sc, iv, x)
  {
  }

  lemma InsideLoop(sc: Scopes, x: string, slot: nat, iv: set<string>, y: string)
    requires sc.Within?
    ensures Where(LoopScope(sc, x, slot), iv - {x}, y)
         == if y == x then (if IsCaptured(LoopScope(sc, x, slot), x) then InDict else InSlot(slot)) else Where(sc, iv, y)
    ensures !IsCaptured(LoopScope(sc, x, slot), x)
  {
  }

  lemma BlockSteady(b: Node, p: Scopes, q: Scopes, iv: set<string>)
    requires b.Block? && SameNames(p, q) && iv !! Bound(p) && AllSteady(Inner(b, iv), p, q, iv)
    ensures var own := Elems(Declared(b));
      AllSteady(DirectAll(b.body, iv - own) + InnerAll(b.body, iv - own),
                Within(BlockScope(b, iv), p), Within(BlockScope(b, iv), q), iv - own)
  {
    hide Where, BlockScope, Captured, DirectAll, InnerAll;
    var own := Elems(Declared(b));
    var direct, inner := DirectAll(b.body, iv - own), InnerAll(b.body, iv - own);
    assert Inner(b, iv) == (direct - own - (iv - own)) + (inner - own - (iv - own));
    forall x | x in direct + inner ensures Steady(x, Within(BlockScope(b, iv), p), Within(BlockScope(b, iv), q), iv - own) {
      InsideBlock(b, p, iv, x);
      InsideBlock(b, q, iv, x);
      if x !in own {
        if x in iv { NamedSame(x, p, q, iv); } else { assert x in Inner(b, iv); }
      }
    }
  }

  /** An instance variable that no scope declares is where it was, too. */
  lemma NamedSame(x: string, p: Scopes, q: Scopes, iv: set<string>)
    requires SameNames(p, q) && x in iv
    ensures x !in Bound(p) ==> Steady(x, p, q, iv)
  {
    SameIsSame(p, q, x);
  }

  // ----- Code whose names are all steady is the same -----

  lemma SteadySub(names: set<string>, all: set<string>, p: Scopes, q: Scopes, iv: set<string>)
    requires AllSteady(all, p, q, iv) && names <= all
    ensures AllSteady(names, p, q, iv)
  {
    forall x | x in names ensures Steady(x, p, q, iv) { assert x in all; }
  }

  function Names(n: Node, iv: set<string>): set<string> { Direct(n, iv) + Inner(n, iv) }
  function AllNames(ns: Nodes, iv: set<string>): set<string> { DirectAll(ns, iv) + InnerAll(ns, iv) }

  lemma {:induction false} StableNode(n: Node, p: Scopes, q: Scopes, iv: set<string>, next: nat)
    requires p.Within? && q.Within? && SameNames(p, q) && iv !! Bound(p) && AllSteady(Names(n, iv), p, q, iv)
    ensures Resolved(n, p, iv, next) == Resolved(n, q, iv, next)
    decreases n, 3
  {
    hide Where, Inlined, AllSteady, SameNames;
    match n
    case Ident(x) => OneSteady(x, Names(n, iv), p, q, iv);
    case Assignment(x, v) =>
      OneSteady(x, Names(n, iv), p, q, iv);
      SteadySub(Names(v, iv), Names(n, iv), p, q, iv);
      StableNode(v, p, q, iv, next);
    case Binary(_, l, r) =>
      SteadySub(Names(l, iv), Names(n, iv), p, q, iv);
      SteadySub(Names(r, iv), Names(n, iv), p, q, iv);
      StableNode(l, p, q, iv, next);
      StableNode(r, p, q, iv, Resolved(l, p, iv, next).1);
    case Send(_, r, a) =>
      if Inlined(n, iv) {
        StableInlined(n, p, q, iv, next);
      } else {
        SteadySub(Names(r, iv), Names(n, iv), p, q, iv);
        SteadySub(AllNames(a, iv), Names(n, iv), p, q, iv);
        StableNode(r, p, q, iv, next);
        StableAll(a, p, q, iv, Resolved(r, p, iv, next).1);
      }
    case Block(_, _, _) =>
      SteadySub(Inner(n, iv), Names(n, iv), p, q, iv);
      StableBlock(n, p, q, iv);
    case Return(v) =>
      SteadySub(Names(v, iv), Names(n, iv), p, q, iv);
      StableNode(v, p, q, iv, next);
    case _ =>
  }

  lemma OneSteady(x: string, names: set<string>, p: Scopes, q: Scopes, iv: set<string>)
    requires AllSteady(names, p, q, iv) && x in names
    ensures Where(p, iv, x) == Where(q, iv, x)
  {
    assert Steady(x, p, q, iv);
  }

  lemma {:induction false} StableBlock(b: Node, p: Scopes, q: Scopes, iv: set<string>)
    requires b.Block? && SameNames(p, q) && iv !! Bound(p) && AllSteady(Inner(b, iv), p, q, iv)
    ensures ResolveBlock(b, p, iv) == ResolveBlock(b, q, iv)
    decreases b, 2
  {
    hide Where, Inlined, AllSteady, Captured;
    var own := Elems(Declared(b));
    BlockSteady(b, p, q, iv);
    BlockBounds(b, p, iv);
    StableAll(b.body, Within(BlockScope(b, iv), p), Within(BlockScope(b, iv), q), iv - own, |Declared(b)|);
  }

  lemma BlockBounds(b: Node, sc: Scopes, iv: set<string>)
    requires b.Block? && iv !! Bound(sc)
    ensures Bound(Within(BlockScope(b, iv), sc)) == Bound(sc) + Elems(Declared(b))
    ensures iv - Elems(Declared(b)) !! Bound(Within(BlockScope(b, iv), sc))
  {
  }

  lemma {:induction false} StableAll(ns: Nodes, p: Scopes, q: Scopes, iv: set<string>, next: nat)
    requires p.Within? && q.Within? && SameNames(p, q) && iv !! Bound(p) && AllSteady(AllNames(ns, iv), p, q, iv)
    ensures ResolveAll(ns, p, iv, next) == ResolveAll(ns, q, iv, next)
    decreases ns, 1
  {
    hide Where, Inlined, AllSteady, SameNames;
    match ns
    case NoNodes =>
    case More(h, t) =>
      SteadySub(Names(h, iv), AllNames(ns, iv), p, q, iv);
      SteadySub(AllNames(t, iv), AllNames(ns, iv), p, q, iv);
      StableNode(h, p, q, iv, next);
      StableAll(t, p, q, iv, Resolved(h, p, iv, next).1);
  }

  /** The names of an operand of a send compiled in line. */
  function SplitNames(n: Node, iv: set<string>): set<string> { SplitDirect(n, iv) + SplitInner(n, iv) }

  lemma InlinedNames(n: Node, iv: set<string>)
    requires Inlined(n, iv)
    ensures n.args.More? && SplitNames(n.recv, iv) <= Names(n, iv) && SplitNames(n.args.head, iv) <= Names(n, iv)
    ensures n.args.tail.More? ==> SplitNames(n.args.tail.head, iv) <= Names(n, iv)
  {
    assert Direct(n, iv) == SplitDirect(n.recv, iv) + SplitDirectAll(n.args, iv);
    assert Inner(n, iv) == SplitInner(n.recv, iv) + SplitInnerAll(n.args, iv);
    if n.args.tail.More? {
      assert SplitDirectAll(n.args.tail, iv) == SplitDirect(n.args.tail.head, iv) + SplitDirectAll(n.args.tail.tail, iv);
      assert SplitInnerAll(n.args.tail, iv) == SplitInner(n.args.tail.head, iv) + SplitInnerAll(n.args.tail.tail, iv);
    }
  }

  lemma SplitOfLiteral(b: Node, iv: set<string>, own: set<string>)
    requires b.Block? && own == Elems(Declared(b))
    ensures SplitNames(b, iv) == AllNames(b.body, iv - own) - own - (iv - own)
  {
    assert SplitDirect(b, iv) == FreeDirect(b, iv) && SplitInner(b, iv) == FreeInner(b, iv);
    assert FreeDirect(b, iv) == DirectAll(b.body, iv - own) - own - (iv - own);
    assert FreeInner(b, iv) == InnerAll(b.body, iv - own) - own - (iv - own);
  }

  /** The body of an inlineable literal uses the literal's free names and visible instance variables. */
  lemma LiteralSteady(b: Node, p: Scopes, q: Scopes, iv: set<string>)
    requires IsInlineableBlock(b) && SameNames(p, q) && iv !! Bound(p) && AllSteady(SplitNames(b, iv), p, q, iv)
    ensures AllSteady(AllNames(b.body, iv), p, q, iv)
  {
    hide Where;
    SplitOfLiteral(b, iv, {});
    assert Elems(Declared(b)) == {} && iv - {} == iv;
    forall x | x in AllNames(b.body, iv) ensures Steady(x, p, q, iv) {
      if x in iv { NamedSame(x, p, q, iv); } else { assert x in SplitNames(b, iv); }
    }
  }

  lemma LoopSteady(b: Node, p: Scopes, q: Scopes, iv: set<string>, slot: nat)
    requires b.Block? && |b.params| == 1 && b.temps == [] && p.Within? && q.Within?
    requires SameNames(p, q) && iv !! Bound(p) && AllSteady(SplitNames(b, iv), p, q, iv)
    ensures var x := b.params[0];
      && AllSteady(AllNames(b.body, iv - {x}), LoopScope(p, x, slot), LoopScope(q, x, slot), iv - {x})
      && SameNames(LoopScope(p, x, slot), LoopScope(q, x, slot)) && iv - {x} !! Bound(LoopScope(p, x, slot))
  {
    hide Where;
    var x := b.params[0];
    assert Declared(b) == [x] && Elems([x]) == {x};
    SplitOfLiteral(b, iv, {x});
    forall y | y in AllNames(b.body, iv - {x}) ensures Steady(y, LoopScope(p, x, slot), LoopScope(q, x, slot), iv - {x}) {
      InsideLoop(p, x, slot, iv, y);
      InsideLoop(q, x, slot, iv, y);
      if y != x {
        if y in iv { NamedSame(y, p, q, iv); } else { assert y in SplitNames(b, iv); }
      }
    }
  }

  lemma {:induction false} StableOperand(n: Node, p: Scopes, q: Scopes, iv: set<string>, next: nat)
    requires p.Within? && q.Within? && SameNames(p, q) && iv !! Bound(p) && AllSteady(SplitNames(n, iv), p, q, iv)
    ensures Resolved(n, p, iv, next) == Resolved(n, q, iv, next)
    decreases n, 4
  {
    hide Where, Inlined, AllSteady, SameNames;
    if n.Block? {
      assert SplitNames(n, iv) == Inner(n, iv);
      StableBlock(n, p, q, iv);
    } else {
      StableNode(n, p, q, iv, next);
    }
  }

  lemma {:induction false} StableInlined(n: Node, p: Scopes, q: Scopes, iv: set<string>, next: nat)
    requires p.Within? && q.Within? && SameNames(p, q) && iv !! Bound(p) && AllSteady(Names(n, iv), p, q, iv) && Inlined(n, iv)
    ensures ResolveInlined(n, p, iv, next) == ResolveInlined(n, q, iv, next)
    decreases n, 2
  {
    InlinedNames(n, iv);
    var h := n.args.head;
    SteadySub(SplitNames(n.recv, iv), Names(n, iv), p, q, iv);
    SteadySub(SplitNames(h, iv), Names(n, iv), p, q, iv);
    if n.args.tail.More? { SteadySub(SplitNames(n.args.tail.head, iv), Names(n, iv), p, q, iv); }
    hide Where, AllSteady, SameNames, Names, SplitNames;
    match InlineShapeOf(n)
    case InlineIf =>
      StableOperand(n.recv, p, q, iv, next);
      LiteralSteady(h, p, q, iv);
      StableAll(h.body, p, q, iv, Resolved(n.recv, p, iv, next).1);
    case InlineIfElse =>
      StableOperand(n.recv, p, q, iv, next);
      var t := if n.sel == IfFalseIfTrue then n.args.tail.head else h;
      var f := if n.sel == IfFalseIfTrue then h else n.args.tail.head;
      LiteralSteady(t, p, q, iv);
      LiteralSteady(f, p, q, iv);
      var n1 := Resolved(n.recv, p, iv, next).1;
      StableAll(t.body, p, q, iv, n1);
      StableAll(f.body, p, q, iv, ResolveAll(t.body, p, iv, n1).1);
    case InlineWhile =>
      LiteralSteady(n.recv, p, q, iv);
      LiteralSteady(h, p, q, iv);
      StableAll(n.recv.body, p, q, iv, next);
      StableAll(h.body, p, q, iv, ResolveAll(n.recv.body, p, iv, next).1);
    case InlineToDo =>
      var b := ToDoBody(n);
      var x := b.params[0];
      LoopSteady(b, p, q, iv, next);
      StableOperand(n.recv, p, q, iv, next + 2);
      var n1 := Resolved(n.recv, p, iv, next + 2).1;
      StableOperand(h, p, q, iv, n1);
      StableAll(b.body, LoopScope(p, x, next), LoopScope(q, x, next), iv - {x}, Resolved(h, p, iv, n1).1);
  }

  // ----- Code that names a slot of an enclosing frame changes with its number -----

  lemma {:induction false} NextNode(n: Node, p: Scopes, q: Scopes, iv: set<string>, next: nat)
    requires p.Within? && q.Within? && SameNames(p, q)
    ensures Resolved(n, p, iv, next).1 == Resolved(n, q, iv, next).1
    decreases n, 3
  {
    hide Inlined;
    match n
    case Assignment(x, v) => SameIsSame(p, q, x); NextNode(v, p, q, iv, next);
    case Binary(_, l, r) =>
      NextNode(l, p, q, iv, next);
      NextNode(r, p, q, iv, Resolved(l, p, iv, next).1);
    case Send(_, r, a) =>
      if Inlined(n, iv) {
        NextInlined(n, p, q, iv, next);
      } else {
        NextNode(r, p, q, iv, next);
        NextAll(a, p, q, iv, Resolved(r, p, iv, next).1);
      }
    case Return(v) => NextNode(v, p, q, iv, next);
    case _ =>
  }

  lemma {:induction false} NextAll(ns: Nodes, p: Scopes, q: Scopes, iv: set<string>, next: nat)
    requires p.Within? && q.Within? && SameNames(p, q)
    ensures ResolveAll(ns, p, iv, next).1 == ResolveAll(ns, q, iv, next).1
    decreases ns, 1
  {
    hide Inlined;
    match ns
    case NoNodes =>
    case More(h, t) =>
      NextNode(h, p, q, iv, next);
      NextAll(t, p, q, iv, Resolved(h, p, iv, next).1);
  }

  lemma {:induction false} NextInlined(n: Node, p: Scopes, q: Scopes, iv: set<string>, next: nat)
    requires p.Within? && q.Within? && SameNames(p, q) && Inlined(n, iv)
    ensures ResolveInlined(n, p, iv, next).1 == ResolveInlined(n, q, iv, next).1
    decreases n, 2
  {
    assert InlineShapeOf(n) != NotInlined;
    var h := n.args.head;
    match InlineShapeOf(n)
    case InlineIf =>
      NextNode(n.recv, p, q, iv, next);
      NextAll(h.body, p, q, iv, Resolved(n.recv, p, iv, next).1);
    case InlineIfElse =>
      NextNode(n.recv, p, q, iv, next);
      var t := if n.sel == IfFalseIfTrue then n.args.tail.head else h;
      var f := if n.sel == IfFalseIfTrue then h else n.args.tail.head;
      var n1 := Resolved(n.recv, p, iv, next).1;
      NextAll(t.body, p, q, iv, n1);
      NextAll(f.body, p, q, iv, ResolveAll(t.body, p, iv, n1).1);
    case InlineWhile =>
      NextAll(n.recv.body, p, q, iv, next);
      NextAll(h.body, p, q, iv, ResolveAll(n.recv.body, p, iv, next).1);
    case InlineToDo =>
      var b := ToDoBody(n);
      NextNode(n.recv, p, q, iv, next + 2);
      var n1 := Resolved(n.recv, p, iv, next + 2).1;
      NextNode(h, p, q, iv, n1);
      NextAll(b.body, LoopScope(p, b.params[0], next), LoopScope(q, b.params[0], next), iv - {b.params[0]}, Resolved(h, p, iv, n1).1);
  }

  /** `x` is a variable whose slot has another number in `q` than in `p`. */
  predicate Moved(x: string, p: Scopes, q: Scopes, iv: set<string>) {
    Where(p, iv, x).InSlot? && Where(q, iv, x).InSlot? && Where(p, iv, x) != Where(q, iv, x)
  }

  lemma {:induction false} DiffersNode(n: Node, p: Scopes, q: Scopes, args: set<string>, iv: set<string>, next: nat, x: string)
    requires p.Within? && q.Within? && SameNames(p, q) && Moved(x, p, q, iv) && x in Direct(n, iv)
    requires WellFormed(n, Bound(p), args, iv) && iv !! Bound(p)
    ensures Resolved(n, p, iv, next).0 != Resolved(n, q, iv, next).0
    decreases n, 3
  {
    hide Inlined, SameNames;
    match n
    case Ident(y) =>
    case Assignment(y, v) =>
      SameIsSame(p, q, y);
      if x != y {
        DiffersNode(v, p, q, args, iv, next, x);
        DeclaredSomewhere(y, p, iv);
        DeclaredSomewhere(y, q, iv);
      }
    case Binary(_, l, r) =>
      NextNode(l, p, q, iv, next);
      if x in Direct(l, iv) { DiffersNode(l, p, q, args, iv, next, x); }
      else { DiffersNode(r, p, q, args, iv, Resolved(l, p, iv, next).1, x); }
    case Send(_, r, a) =>
      if Inlined(n, iv) {
        DiffersInlined(n, p, q, args, iv, next, x);
      } else {
        NextNode(r, p, q, iv, next);
        if x in Direct(r, iv) { DiffersNode(r, p, q, args, iv, next, x); }
        else { DiffersAll(a, p, q, args, iv, Resolved(r, p, iv, next).1, x); }
      }
    case Return(v) => DiffersNode(v, p, q, args, iv, next, x);
  }

  lemma DeclaredSomewhere(x: string, sc: Scopes, iv: set<string>)
    requires x in Bound(sc) || x in iv
    ensures Where(sc, iv, x) != Undeclared
  {
    SameIsSelf(sc);
    SameIsSame(sc, sc, x);
  }

  lemma {:induction false} SameIsSelf(sc: Scopes)
    ensures SameNames(sc, sc)
  {
    if sc.Within? { SameIsSelf(sc.outer); }
  }

  lemma {:induction false} DiffersAll(ns: Nodes, p: Scopes, q: Scopes, args: set<string>, iv: set<string>, next: nat, x: string)
    requires p.Within? && q.Within? && SameNames(p, q) && Moved(x, p, q, iv) && x in DirectAll(ns, iv)
    requires AllWellFormed(ns, Bound(p), args, iv) && iv !! Bound(p)
    ensures ResolveAll(ns, p, iv, next).0 != ResolveAll(ns, q, iv, next).0
    decreases ns, 1
  {
    hide Inlined, SameNames, Where;
    match ns
    case More(h, t) =>
      NextNode(h, p, q, iv, next);
      if x in Direct(h, iv) { DiffersNode(h, p, q, args, iv, next, x); }
      else { DiffersAll(t, p, q, args, iv, Resolved(h, p, iv, next).1, x); }
  }

  lemma {:induction false} DiffersBlock(b: Node, p: Scopes, q: Scopes, args: set<string>, iv: set<string>, x: string)
    requires b.Block? && SameNames(p, q) && Moved(x, p, q, iv) && x in FreeDirect(b, iv)
    requires WellFormed(b, Bound(p), args, iv) && iv !! Bound(p)
    ensures ResolveBlock(b, p, iv) != ResolveBlock(b, q, iv)
    decreases b, 2
  {
    var own := Elems(Declared(b));
    BlockBounds(b, p, iv);
    InsideBlock(b, p, iv, x);
    InsideBlock(b, q, iv, x);
    hide Inlined, Where, Captured, Bound, SameNames;
    assert SameNames(Within(BlockScope(b, iv), p), Within(BlockScope(b, iv), q)) by { Enclosed(BlockScope(b, iv), p, q); }
    DiffersAll(b.body, Within(BlockScope(b, iv), p), Within(BlockScope(b, iv), q), (args - own) + Elems(b.params), iv - own,
               |Declared(b)|, x);
  }

  lemma Enclosed(s: Scope, p: Scopes, q: Scopes)
    requires SameNames(p, q)
    ensures SameNames(Within(s, p), Within(s, q))
  {
  }

  /** A literal compiled in line: its body runs in the scope around it. */
  lemma LiteralFits(b: Node, bound: set<string>, args: set<string>, iv: set<string>)
    requires IsInlineableBlock(b) && WellFormed(b, bound, args, iv)
    ensures AllWellFormed(b.body, bound, args, iv) && FreeDirect(b, iv) <= DirectAll(b.body, iv)
  {
    assert Elems(b.params + b.temps) == {} && Elems(b.params) == {};
    assert bound + {} == bound && (args - {}) + {} == args && iv - {} == iv;
  }

  lemma LoopFits(b: Node, p: Scopes, slot: nat, args: set<string>, iv: set<string>)
    requires b.Block? && |b.params| == 1 && b.temps == [] && p.Within? && WellFormed(b, Bound(p), args, iv)
    ensures var x := b.params[0];
      && AllWellFormed(b.body, Bound(LoopScope(p, x, slot)), (args - {x}) + {x}, iv - {x})
      && FreeDirect(b, iv) <= DirectAll(b.body, iv - {x}) - {x}
  {
    var x := b.params[0];
    assert b.params + b.temps == [x] && b.params == [x] && Elems([x]) == {x};
    assert Bound(LoopScope(p, x, slot)) == Bound(p) + {x};
  }

  lemma {:induction false} DiffersOperand(n: Node, p: Scopes, q: Scopes, args: set<string>, iv: set<string>, next: nat, x: string)
    requires p.Within? && q.Within? && SameNames(p, q) && Moved(x, p, q, iv) && x in SplitDirect(n, iv)
    requires WellFormed(n, Bound(p), args, iv) && iv !! Bound(p)
    ensures Resolved(n, p, iv, next).0 != Resolved(n, q, iv, next).0
    decreases n, 4
  {
    hide Inlined, SameNames, Where;
    if n.Block? { DiffersBlock(n, p, q, args, iv, x); } else { DiffersNode(n, p, q, args, iv, next, x); }
  }

  lemma {:induction false} DiffersLiteral(b: Node, p: Scopes, q: Scopes, args: set<string>, iv: set<string>, next: nat, x: string)
    requires p.Within? && q.Within? && SameNames(p, q) && Moved(x, p, q, iv) && iv !! Bound(p)
    requires IsInlineableBlock(b) && WellFormed(b, Bound(p), args, iv) && x in FreeDirect(b, iv)
    ensures ResolveAll(b.body, p, iv, next).0 != ResolveAll(b.body, q, iv, next).0
    decreases b, 2
  {
    LiteralFits(b, Bound(p), args, iv);
    DiffersAll(b.body, p, q, args, iv, next, x);
  }

  /** What an inlined send resolves to, by its shape; `Direct` names come from its operands. */
  lemma DirectOfInlined(n: Node, bound: set<string>, args: set<string>, iv: set<string>, x: string)
    requires Inlined(n, iv) && x in Direct(n, iv) && WellFormed(n, bound, args, iv)
    ensures n.Send? && n.args.More? && InlineShapeOf(n) != NotInlined && (InlineShapeOf(n) in {InlineIfElse, InlineToDo} ==> n.args.tail.More?)
    ensures WellFormed(n.recv, bound, args, iv) && WellFormed(n.args.head, bound, args, iv)
    ensures n.args.tail.More? ==> WellFormed(n.args.tail.head, bound, args, iv)
    ensures x in SplitDirect(n.recv, iv) || x in SplitDirect(n.args.head, iv)
            || (InlineShapeOf(n) in {InlineIfElse, InlineToDo} && x in SplitDirect(n.args.tail.head, iv))
  {
    hide SplitDirect;
    assert Direct(n, iv) == SplitDirect(n.recv, iv) + SplitDirectAll(n.args, iv);
    assert AllWellFormed(n.args, bound, args, iv);
    assert SplitDirectAll(n.args, iv) == SplitDirect(n.args.head, iv) + SplitDirectAll(n.args.tail, iv);
    if n.args.tail.More? {
      assert AllWellFormed(n.args.tail, bound, args, iv);
      assert SplitDirectAll(n.args.tail, iv) == SplitDirect(n.args.tail.head, iv) + SplitDirectAll(n.args.tail.tail, iv);
    }
  }

  lemma {:induction false} DiffersInlined(n: Node, p: Scopes, q: Scopes, args: set<string>, iv: set<string>, next: nat, x: string)
    requires p.Within? && q.Within? && SameNames(p, q) && Moved(x, p, q, iv) && x in Direct(n, iv)
    requires WellFormed(n, Bound(p), args, iv) && iv !! Bound(p) && Inlined(n, iv)
    ensures ResolveInlined(n, p, iv, next).0 != ResolveInlined(n, q, iv, next).0
    decreases n, 2
  {
    DirectOfInlined(n, Bound(p), args, iv, x);
    hide Inlined, SameNames, Where, WellFormed, Direct, Moved, Bound;
    var h := n.args.head;
    match InlineShapeOf(n)
    case InlineIf =>
      NextNode(n.recv, p, q, iv, next);
      if x in SplitDirect(n.recv, iv) { DiffersOperand(n.recv, p, q, args, iv, next, x); }
      else { DiffersLiteral(h, p, q, args, iv, Resolved(n.recv, p, iv, next).1, x); }
    case InlineIfElse => DiffersIfElse(n, p, q, args, iv, next, x);
    case InlineWhile =>
      NextAll(n.recv.body, p, q, iv, next);
      if x in SplitDirect(n.recv, iv) { DiffersLiteral(n.recv, p, q, args, iv, next, x); }
      else { DiffersLiteral(h, p, q, args, iv, ResolveAll(n.recv.body, p, iv, next).1, x); }
    case InlineToDo => DiffersToDo(n, p, q, args, iv, next, x);
  }

  lemma {:induction false} DiffersIfElse(n: Node, p: Scopes, q: Scopes, args: set<string>, iv: set<string>, next: nat, x: string)
    requires p.Within? && q.Within? && SameNames(p, q) && Moved(x, p, q, iv) && iv !! Bound(p)
    requires InlineShapeOf(n) == InlineIfElse && Inlined(n, iv)
    requires WellFormed(n.recv, Bound(p), args, iv) && WellFormed(n.args.head, Bound(p), args, iv)
    requires WellFormed(n.args.tail.head, Bound(p), args, iv)
    requires x in SplitDirect(n.recv, iv) || x in SplitDirect(n.args.head, iv) || x in SplitDirect(n.args.tail.head, iv)
    ensures ResolveInlined(n, p, iv, next).0 != ResolveInlined(n, q, iv, next).0
    decreases n, 1
  {
    hide Inlined, SameNames, Where, WellFormed, Direct, Moved, Bound;
    var t := if n.sel == IfFalseIfTrue then n.args.tail.head else n.args.head;
    var f := if n.sel == IfFalseIfTrue then n.args.head else n.args.tail.head;
    var n1 := Resolved(n.recv, p, iv, next).1;
    var n2 := ResolveAll(t.body, p, iv, n1).1;
    NextNode(n.recv, p, q, iv, next);
    NextAll(t.body, p, q, iv, n1);
    if x in SplitDirect(n.recv, iv) { DiffersOperand(n.recv, p, q, args, iv, next, x); }
    else if x in SplitDirect(t, iv) { DiffersLiteral(t, p, q, args, iv, n1, x); }
    else { DiffersLiteral(f, p, q, args, iv, n2, x); }
  }

  lemma {:induction false} DiffersToDo(n: Node, p: Scopes, q: Scopes, args: set<string>, iv: set<string>, next: nat, x: string)
    requires p.Within? && q.Within? && SameNames(p, q) && Moved(x, p, q, iv) && iv !! Bound(p)
    requires InlineShapeOf(n) == InlineToDo && Inlined(n, iv)
    requires WellFormed(n.recv, Bound(p), args, iv) && WellFormed(n.args.head, Bound(p), args, iv)
    requires WellFormed(n.args.tail.head, Bound(p), args, iv)
    requires x in SplitDirect(n.recv, iv) || x in SplitDirect(n.args.head, iv) || x in SplitDirect(n.args.tail.head, iv)
    ensures ResolveInlined(n, p, iv, next).0 != ResolveInlined(n, q, iv, next).0
    decreases n, 1
  {
    hide Inlined, WellFormed, Direct;
    var b := ToDoBody(n);
    var y := b.params[0];
    var n1 := Resolved(n.recv, p, iv, next + 2).1;
    var n2 := Resolved(n.args.head, p, iv, n1).1;
    NextNode(n.recv, p, q, iv, next + 2);
    NextNode(n.args.head, p, q, iv, n1);
    if x in SplitDirect(n.recv, iv) { DiffersOperand(n.recv, p, q, args, iv, next + 2, x); }
    else if x in SplitDirect(n.args.head, iv) { DiffersOperand(n.args.head, p, q, args, iv, n1, x); }
    else {
      LoopFits(b, p, next, args, iv);
      InsideLoop(p, y, next, iv, x);
      InsideLoop(q, y, next, iv, x);
      assert SameNames(LoopScope(p, y, next), LoopScope(q, y, next)) && Moved(x, LoopScope(p, y, next), LoopScope(q, y, next), iv - {y});
      assert iv - {y} !! Bound(LoopScope(p, y, next));
      hide Bound, SameNames, Moved, Where;
      DiffersAll(b.body, LoopScope(p, y, next), LoopScope(q, y, next), (args - {y}) + {y}, iv - {y}, n2, x);
    }
  }

  // ----- Exactly when every block names slots of its own only -----

  function Renumbered(sc: Scopes): Scopes {
    match sc
    case NoScope => NoScope
    case Within(s, o) => Within(s.(slots := map x | x in s.slots :: s.slots[x] + 1), Renumbered(o))
  }

  lemma {:induction false} RenumberMoves(sc: Scopes, iv: set<string>, x: string)
    requires x in PlainOf(sc)
    ensures SameNames(sc, Renumbered(sc)) && Moved(x, sc, Renumbered(sc), iv)
  {
    RenumberSame(sc);
    SameIsSame(sc, Renumbered(sc), x);
    RenumberSlot(sc, x);
  }

  lemma {:induction false} RenumberSame(sc: Scopes)
    ensures SameNames(sc, Renumbered(sc))
  {
    if sc.Within? { RenumberSame(sc.outer); }
  }

  lemma {:induction false} RenumberSlot(sc: Scopes, x: string)
    requires ResolveLocal(sc, x).InSlot?
    ensures ResolveLocal(Renumbered(sc), x) == InSlot(ResolveLocal(sc, x).slot + 1)
  {
    if x !in sc.inner.slots { RenumberSlot(sc.outer, x); }
  }

  /** What inner blocks need is captured, where it is declared at all. */
  predicate InnerCaptured(names: set<string>, sc: Scopes) { forall x | x in names && x in Bound(sc) :: IsCaptured(sc, x) }

  lemma CapturedIsSteady(names: set<string>, p: Scopes, q: Scopes, iv: set<string>)
    requires InnerCaptured(names, p) && SameNames(p, q)
    ensures AllSteady(names, p, q, iv)
  {
    forall x | x in names ensures Steady(x, p, q, iv) { SameIsSame(p, q, x); }
  }

  lemma CapturedIsOwn(b: Node, sc: Scopes, iv: set<string>)
    requires b.Block? && iv !! Bound(sc) && InnerCaptured(Inner(b, iv), sc)
    ensures OwnBlock(b, sc, iv)
  {
    hide ResolveBlock, SameNames, InnerCaptured;
    forall q | SameNames(sc, q) ensures ResolveBlock(b, q, iv) == ResolveBlock(b, sc, iv) {
      CapturedIsSteady(Inner(b, iv), sc, q, iv);
      StableBlock(b, sc, q, iv);
    }
  }

  lemma PlainIsForeign(b: Node, sc: Scopes, args: set<string>, iv: set<string>, x: string)
    requires b.Block? && WellFormed(b, Bound(sc), args, iv) && iv !! Bound(sc) && x in FreeDirect(b, iv) && x in PlainOf(sc)
    ensures !OwnBlock(b, sc, iv)
  {
    hide ResolveBlock, WellFormed;
    RenumberMoves(sc, iv, x);
    DiffersBlock(b, sc, Renumbered(sc), args, iv, x);
  }

  /** The conditions inside a block literal. */
  lemma BodyConditions(b: Node, sc: Scopes, args: set<string>, iv: set<string>)
    requires b.Block? && WellFormed(b, Bound(sc), args, iv) && iv !! Bound(sc) && InnerCaptured(FreeInner(b, iv), sc)
    ensures var own, inner := Elems(Declared(b)), Within(BlockScope(b, iv), sc);
      && AllWellFormed(b.body, Bound(inner), (args - own) + Elems(b.params), iv - own)
      && InnerCaptured(InnerAll(b.body, iv - own), inner) && PlainOf(inner) == PlainIn(b, PlainOf(sc), iv)
  {
    var own, inner := Elems(Declared(b)), Within(BlockScope(b, iv), sc);
    BlockBounds(b, sc, iv);
    InnerAllAvoidsInstVars(b.body, iv - own);
    forall x | x in InnerAll(b.body, iv - own) && x in Bound(inner) ensures IsCaptured(inner, x) {
      if x !in own { assert x in FreeInner(b, iv); }
    }
  }

  lemma CapturedSub(names: set<string>, all: set<string>, sc: Scopes)
    requires InnerCaptured(all, sc) && names <= all
    ensures InnerCaptured(names, sc)
  {
  }

  lemma {:induction false} OwnNode(n: Node, sc: Scopes, args: set<string>, iv: set<string>)
    requires sc.Within? && WellFormed(n, Bound(sc), args, iv) && iv !! Bound(sc) && InnerCaptured(Inner(n, iv), sc)
    ensures OwnSlots(n, sc, iv) <==> Clean(n, PlainOf(sc), iv)
    decreases n, 3
  {
    hide Inlined, InnerCaptured, Bound, PlainOf, OwnBlock;
    match n
    case Assignment(_, v) => OwnNode(v, sc, args, iv);
    case Binary(_, l, r) =>
      CapturedSub(Inner(l, iv), Inner(n, iv), sc);
      CapturedSub(Inner(r, iv), Inner(n, iv), sc);
      OwnNode(l, sc, args, iv);
      OwnNode(r, sc, args, iv);
    case Send(_, r, a) =>
      if Inlined(n, iv) {
        OwnInlinedSend(n, sc, args, iv);
      } else {
        CapturedSub(Inner(r, iv), Inner(n, iv), sc);
        CapturedSub(InnerAll(a, iv), Inner(n, iv), sc);
        OwnNode(r, sc, args, iv);
        OwnAll(a, sc, args, iv);
      }
    case Block(_, _, _) =>
      CapturedIsOwn(n, sc, iv);
      CapturedSub(FreeInner(n, iv), Inner(n, iv), sc);
      OwnBody(n, sc, args, iv);
    case Return(v) => OwnNode(v, sc, args, iv);
    case _ =>
  }

  lemma {:induction false} OwnAll(ns: Nodes, sc: Scopes, args: set<string>, iv: set<string>)
    requires sc.Within? && AllWellFormed(ns, Bound(sc), args, iv) && iv !! Bound(sc) && InnerCaptured(InnerAll(ns, iv), sc)
    ensures AllOwnSlots(ns, sc, iv) <==> AllClean(ns, PlainOf(sc), iv)
    decreases ns, 0
  {
    hide Inlined, InnerCaptured, Bound, PlainOf;
    match ns
    case NoNodes =>
    case More(h, t) =>
      CapturedSub(Inner(h, iv), InnerAll(ns, iv), sc);
      CapturedSub(InnerAll(t, iv), InnerAll(ns, iv), sc);
      OwnNode(h, sc, args, iv);
      OwnAll(t, sc, args, iv);
  }

  lemma {:induction false} OwnBody(b: Node, sc: Scopes, args: set<string>, iv: set<string>)
    requires b.Block? && WellFormed(b, Bound(sc), args, iv) && iv !! Bound(sc) && InnerCaptured(FreeInner(b, iv), sc)
    ensures var own, inner := Elems(Declared(b)), Within(BlockScope(b, iv), sc);
      AllOwnSlots(b.body, inner, iv - own) <==> AllClean(b.body, PlainIn(b, PlainOf(sc), iv), iv - own)
    decreases b, 2
  {
    var own, inner := Elems(Declared(b)), Within(BlockScope(b, iv), sc);
    BodyConditions(b, sc, args, iv);
    BlockBounds(b, sc, iv);
    hide Inlined, InnerCaptured, Bound, PlainOf, PlainIn;
    OwnAll(b.body, inner, (args - own) + Elems(b.params), iv - own);
  }

  /** An operand: a literal names slots of its own only when it uses no slot variable around it. */
  lemma {:induction false} OwnOperand(n: Node, sc: Scopes, args: set<string>, iv: set<string>)
    requires sc.Within? && WellFormed(n, Bound(sc), args, iv) && iv !! Bound(sc) && InnerCaptured(SplitInner(n, iv), sc)
    ensures OwnSlots(n, sc, iv) <==> CleanOperand(n, PlainOf(sc), iv)
    decreases n, 4
  {
    if !n.Block? {
      OwnNode(n, sc, args, iv);
    } else {
      hide Inlined, Bound, PlainOf, OwnBlock, WellFormed, FreeDirect, FreeInner;
      OwnBody(n, sc, args, iv);
      if FreeDirect(n, iv) !! PlainOf(sc) {
        assert InnerCaptured(Inner(n, iv), sc) by { SplitCaptured(n, sc, iv); }
        CapturedIsOwn(n, sc, iv);
      } else {
        var x :| x in FreeDirect(n, iv) && x in PlainOf(sc);
        PlainIsForeign(n, sc, args, iv, x);
      }
    }
  }

  lemma SplitCaptured(b: Node, sc: Scopes, iv: set<string>)
    requires b.Block? && FreeDirect(b, iv) !! PlainOf(sc) && InnerCaptured(FreeInner(b, iv), sc)
    ensures InnerCaptured(Inner(b, iv), sc)
  {
    hide FreeDirect, FreeInner;
    assert Inner(b, iv) == FreeDirect(b, iv) + FreeInner(b, iv);
  }

  lemma {:induction false} OwnLiteral(b: Node, sc: Scopes, args: set<string>, iv: set<string>)
    requires sc.Within? && IsInlineableBlock(b) && WellFormed(b, Bound(sc), args, iv) && iv !! Bound(sc)
    requires InnerCaptured(SplitInner(b, iv), sc)
    ensures AllOwnSlots(b.body, sc, iv) <==> AllClean(b.body, PlainOf(sc), iv)
    decreases b, 2
  {
    LiteralFits(b, Bound(sc), args, iv);
    InnerOfLiteral(b, iv);
    CapturedSub(InnerAll(b.body, iv), SplitInner(b, iv), sc);
    OwnAll(b.body, sc, args, iv);
  }

  lemma InnerOfLiteral(b: Node, iv: set<string>)
    requires IsInlineableBlock(b)
    ensures InnerAll(b.body, iv) == SplitInner(b, iv)
  {
    assert Elems(Declared(b)) == {} && iv - {} == iv;
    InnerAllAvoidsInstVars(b.body, iv);
  }

  lemma InnerOfInlined(n: Node, iv: set<string>)
    requires Inlined(n, iv)
    ensures n.args.More? && SplitInner(n.recv, iv) <= Inner(n, iv) && SplitInner(n.args.head, iv) <= Inner(n, iv)
    ensures n.args.tail.More? ==> SplitInner(n.args.tail.head, iv) <= Inner(n, iv)
  {
    hide SplitInner;
    assert Inner(n, iv) == SplitInner(n.recv, iv) + SplitInnerAll(n.args, iv);
    assert SplitInnerAll(n.args, iv) == SplitInner(n.args.head, iv) + SplitInnerAll(n.args.tail, iv);
    if n.args.tail.More? {
      assert SplitInnerAll(n.args.tail, iv) == SplitInner(n.args.tail.head, iv) + SplitInnerAll(n.args.tail.tail, iv);
    }
  }

  lemma OperandsWellFormed(n: Node, bound: set<string>, args: set<string>, iv: set<string>)
    requires n.Send? && n.args.More? && WellFormed(n, bound, args, iv)
    ensures WellFormed(n.recv, bound, args, iv) && WellFormed(n.args.head, bound, args, iv)
    ensures n.args.tail.More? ==> WellFormed(n.args.tail.head, bound, args, iv)
  {
    assert AllWellFormed(n.args, bound, args, iv);
    assert AllWellFormed(n.args.tail, bound, args, iv);
  }

  lemma {:induction false} OwnInlinedSend(n: Node, sc: Scopes, args: set<string>, iv: set<string>)
    requires sc.Within? && WellFormed(n, Bound(sc), args, iv) && iv !! Bound(sc) && InnerCaptured(Inner(n, iv), sc) && Inlined(n, iv)
    ensures OwnInlined(n, sc, iv) <==> CleanInlined(n, PlainOf(sc), iv)
    decreases n, 2
  {
    assert InlineShapeOf(n) != NotInlined;
    var h := n.args.head;
    InnerOfInlined(n, iv);
    OperandsWellFormed(n, Bound(sc), args, iv);
    CapturedSub(SplitInner(n.recv, iv), Inner(n, iv), sc);
    CapturedSub(SplitInner(h, iv), Inner(n, iv), sc);
    if n.args.tail.More? { CapturedSub(SplitInner(n.args.tail.head, iv), Inner(n, iv), sc); }
    hide InnerCaptured, Bound, PlainOf, WellFormed, SplitInner, CleanOperand;
    match InlineShapeOf(n)
    case InlineIf => OwnOperand(n.recv, sc, args, iv); OwnLiteral(h, sc, args, iv);
    case InlineIfElse =>
      OwnOperand(n.recv, sc, args, iv);
      OwnLiteral(h, sc, args, iv);
      OwnLiteral(n.args.tail.head, sc, args, iv);
    case InlineWhile => OwnLiteral(n.recv, sc, args, iv); OwnLiteral(h, sc, args, iv);
    case InlineToDo =>
      OwnOperand(n.recv, sc, args, iv);
      OwnOperand(h, sc, args, iv);
      OwnLoopBody(n, sc, args, iv);
  }

  lemma {:induction false} OwnLoopBody(n: Node, sc: Scopes, args: set<string>, iv: set<string>)
    requires sc.Within? && InlineShapeOf(n) == InlineToDo && Inlined(n, iv) && iv !! Bound(sc)
    requires WellFormed(ToDoBody(n), Bound(sc), args, iv) && InnerCaptured(SplitInner(ToDoBody(n), iv), sc)
    ensures var b := ToDoBody(n); var x := b.params[0];
      AllOwnSlots(b.body, LoopScope(sc, x, 0), iv - {x}) <==> AllClean(b.body, PlainOf(sc) + {x}, iv - {x})
    decreases n, 1
  {
    var b := ToDoBody(n);
    var x := b.params[0];
    var q := LoopScope(sc, x, 0);
    assert Declared(b) == [x] && Elems([x]) == {x};
    LoopFits(b, sc, 0, args, iv);
    assert Bound(q) == Bound(sc) + {x};
    InnerAllAvoidsInstVars(b.body, iv - {x});
    forall y | y in InnerAll(b.body, iv - {x}) && y in Bound(q) ensures IsCaptured(q, y) {
      assert y in FreeInner(b, iv) && y != x;
    }
    assert InnerCaptured(InnerAll(b.body, iv - {x}), q);
    assert PlainOf(q) == PlainOf(sc) + {x};
    hide Inlined, Bound, PlainOf, WellFormed, InnerCaptured;
    OwnAll(b.body, q, (args - {x}) + {x}, iv - {x});
  }

  /** The own-slot property of a whole method, and its exact condition: no block literal standing as the
      receiver of an inlined conditional, or as the receiver or bound of an inlined to:do:, uses directly
      a variable of the scope around it that is not captured. */
  lemma OwnSlotsExactly(m: Method, ivars: set<string>)
    requires MethodWellFormed(m, ivars)
    ensures OwnMethod(m, ivars) <==> CleanMethod(m, ivars)
  {
    hide MethodCaptured;
    var own := Elems(m.params + m.temps);
    var sc := Within(MethodScope(m, ivars), NoScope);
    assert Bound(sc) == own;
    assert InnerCaptured(InnerAll(m.body, ivars - own), sc) by { MethodNeeds(m, ivars); }
    assert PlainOf(sc) == own - MethodCaptured(m, ivars);
    OwnAll(m.body, sc, Elems(m.params), ivars - own);
  }

  lemma MethodNeeds(m: Method, ivars: set<string>)
    ensures var own := Elems(m.params + m.temps);
      forall x | x in InnerAll(m.body, ivars - own) && x in own :: x in MethodCaptured(m, ivars)
  {
  }

  // ----- The condition can fail -----

  const OPERAND := Block([], [], More(Ident("x"), NoNodes))
  const BRANCH := Block([], [], More(IntLit(1), NoNodes))
  const OPERAND_SEND := Send(IfTrue, OPERAND, More(BRANCH, NoNodes))

  const SEVEN := Assignment("x", IntLit(7))

  /** | x | x := 7. [x] ifTrue: [1] */
  const OPERAND_METHOD := Method([], ["x"], More(SEVEN, More(OPERAND_SEND, NoNodes)))

  lemma OperandMethodFacts()
    ensures MethodWellFormed(OPERAND_METHOD, {}) && Inlined(OPERAND_SEND, {})
    ensures Elems([] + ["x"]) == {"x"} && MethodCaptured(OPERAND_METHOD, {}) == {}
    ensures FreeDirect(OPERAND, {}) == {"x"} && Captured(OPERAND, {}) == {}
  {
    var none: seq<string> := [];
    var u: set<string> := {"x"};
    assert none + none == none && Elems(none) == {} && none + ["x"] == ["x"] && Elems(["x"]) == u && {} - u == {};
    assert !(HIDDEN_PREFIX <= "x") by { assert |HIDDEN_PREFIX| > |"x"|; }
    assert DeclaresOk(["x"]) && DeclaresOk(none);
    assert InlineShapeOf(OPERAND_SEND) == InlineIf;
    OperandWellFormed(u);
    OperandNames();
    hide WellFormed, Inner, Captured, FreeDirect;
    assert WellFormed(SEVEN, u, {}, {}) by { SevenWellFormed(u); }
    assert AllWellFormed(More(OPERAND_SEND, NoNodes), u, {}, {});
    assert AllWellFormed(OPERAND_METHOD.body, u, {}, {});
    assert InnerAll(More(OPERAND_SEND, NoNodes), {}) == {};
    assert InnerAll(OPERAND_METHOD.body, {}) == {};
  }

  lemma SevenWellFormed(u: set<string>)
    requires u == {"x"}
    ensures WellFormed(SEVEN, u, {}, {})
  {
  }

  /** What the analysis makes of the receiver block and of the send. */
  lemma OperandNames()
    requires Elems([]) == {} && InlineShapeOf(OPERAND_SEND) == InlineIf
    ensures FreeDirect(OPERAND, {}) == {"x"} && Captured(OPERAND, {}) == {}
    ensures Inner(OPERAND_SEND, {}) == {} && Inner(SEVEN, {}) == {}
  {
    var none: seq<string> := [];
    assert Declared(OPERAND) == none && Declared(BRANCH) == none && {} - Elems(none) == {};
    assert DirectAll(More(Ident("x"), NoNodes), {}) == {"x"} && InnerAll(More(Ident("x"), NoNodes), {}) == {};
    assert InnerAll(More(IntLit(1), NoNodes), {}) == {};
    assert FreeInner(OPERAND, {}) == {} && FreeInner(BRANCH, {}) == {};
    assert SplitInner(OPERAND, {}) == {} && SplitInner(BRANCH, {}) == {} && SplitInnerAll(More(BRANCH, NoNodes), {}) == {};
  }

  lemma OperandWellFormed(u: set<string>)
    requires u == {"x"} && Elems([]) == {} && DeclaresOk([] + [])
    ensures WellFormed(OPERAND_SEND, u, {}, {})
  {
    var none: seq<string> := [];
    assert Elems(none + none) == {};
    assert WellFormed(Ident("x"), u + {}, ({} - {}) + {}, {} - {});
    assert AllWellFormed(More(Ident("x"), NoNodes), u + {}, ({} - {}) + {}, {} - {});
    assert WellFormed(OPERAND, u, {}, {});
    assert AllWellFormed(More(IntLit(1), NoNodes), u + {}, ({} - {}) + {}, {} - {});
    assert WellFormed(BRANCH, u, {}, {});
    assert AllWellFormed(More(BRANCH, NoNodes), u, {}, {});
  }

  /** The receiver block of that method, which declares nothing and opens no dictionary, is compiled to
      read slot 1: the slot of the method's `x`. */
  lemma OperandReadsItsMethod()
    ensures MethodWellFormed(OPERAND_METHOD, {}) && !OwnMethod(OPERAND_METHOD, {}) && !CleanMethod(OPERAND_METHOD, {})
    ensures ResolveMethod(OPERAND_METHOD, {}) == RBlock(1, [], RCons(StoreLocal(1, PushInt(7)),
              RCons(Cond(IfTrue, true, MakeBlock(RBlock(0, [], RCons(LoadLocal(1), RNil))), RCons(PushInt(1), RNil)), RNil)))
  {
    OperandMethodFacts();
    OperandMethodCode();
    hide *;
    OperandNotClean();
    OwnSlotsExactly(OPERAND_METHOD, {});
  }

  lemma OperandMethodCode()
    requires Elems([] + ["x"]) == {"x"} && MethodCaptured(OPERAND_METHOD, {}) == {}
    requires Captured(OPERAND, {}) == {} && Inlined(OPERAND_SEND, {})
    ensures ResolveMethod(OPERAND_METHOD, {}) == RBlock(1, [], RCons(StoreLocal(1, PushInt(7)),
              RCons(Cond(IfTrue, true, MakeBlock(RBlock(0, [], RCons(LoadLocal(1), RNil))), RCons(PushInt(1), RNil)), RNil)))
  {
    hide MethodCaptured, Captured, Inlined;
    var names: seq<string> := [] + ["x"];
    assert names == ["x"] && {} - Elems(names) == {};
    var sc := Within(MethodScope(OPERAND_METHOD, {}), NoScope);
    assert sc.inner.slots == map["x" := 1] && sc.inner.captured == {};
    OperandBodyCode(sc);
    hide Resolved, Where, ResolveBlock, ResolveAll;
    assert Defines(names, 0, 1, {}, 1) == [] && Defines(names, 0, 1, {}, 0) == [];
  }

  lemma OperandBodyCode(sc: Scopes)
    requires sc.Within? && sc.inner.slots == map["x" := 1] && sc.inner.captured == {}
    requires Captured(OPERAND, {}) == {} && Inlined(OPERAND_SEND, {})
    ensures ResolveAll(OPERAND_METHOD.body, sc, {}, 2).0 == RCons(StoreLocal(1, PushInt(7)),
              RCons(Cond(IfTrue, true, MakeBlock(RBlock(0, [], RCons(LoadLocal(1), RNil))), RCons(PushInt(1), RNil)), RNil))
  {
    hide Captured, Inlined;
    OperandBlockCode(sc);
    OperandSendCode(sc);
    assert Where(sc, {}, "x") == InSlot(1);
    assert Resolved(SEVEN, sc, {}, 2) == (StoreLocal(1, PushInt(7)), 2);
    hide Resolved, Where, ResolveBlock;
    assert ResolveAll(More(OPERAND_SEND, NoNodes), sc, {}, 2).0 == RCons(Resolved(OPERAND_SEND, sc, {}, 2).0, RNil);
  }

  lemma OperandBlockCode(sc: Scopes)
    requires sc.Within? && sc.inner.slots == map["x" := 1] && sc.inner.captured == {} && Captured(OPERAND, {}) == {}
    ensures ResolveBlock(OPERAND, sc, {}) == RBlock(0, [], RCons(LoadLocal(1), RNil))
  {
    hide Captured;
    var none: seq<string> := [];
    assert Declared(OPERAND) == none && Elems(none) == {} && {} - Elems(none) == {};
    var inner := Within(BlockScope(OPERAND, {}), sc);
    InsideBlock(OPERAND, sc, {}, "x");
    assert Where(inner, {}, "x") == Where(sc, {}, "x") == InSlot(1);
    assert Resolved(Ident("x"), inner, {}, 0) == (LoadLocal(1), 0);
    assert ResolveAll(OPERAND.body, inner, {}, 0).0 == RCons(LoadLocal(1), RNil);
  }

  lemma OperandSendCode(sc: Scopes)
    requires sc.Within? && Inlined(OPERAND_SEND, {})
    ensures Resolved(OPERAND_SEND, sc, {}, 2).0
         == Cond(IfTrue, true, MakeBlock(ResolveBlock(OPERAND, sc, {})), RCons(PushInt(1), RNil))
  {
    hide ResolveBlock, Inlined;
    assert Resolved(IntLit(1), sc, {}, 2) == (PushInt(1), 2) && ResolveAll(NoNodes, sc, {}, 2) == (RNil, 2);
    assert ResolveAll(BRANCH.body, sc, {}, 2).0 == RCons(PushInt(1), RNil);
    assert Resolved(OPERAND, sc, {}, 2) == (MakeBlock(ResolveBlock(OPERAND, sc, {})), 2);
    assert InlineShapeOf(OPERAND_SEND) == InlineIf;
    assert Resolved(OPERAND_SEND, sc, {}, 2) == ResolveInlined(OPERAND_SEND, sc, {}, 2);
  }

  lemma OperandNotClean()
    requires Inlined(OPERAND_SEND, {}) && Elems([] + ["x"]) == {"x"} && MethodCaptured(OPERAND_METHOD, {}) == {}
    requires FreeDirect(OPERAND, {}) == {"x"}
    ensures !CleanMethod(OPERAND_METHOD, {})
  {
    hide MethodCaptured, FreeDirect, Inlined;
    assert InlineShapeOf(OPERAND_SEND) == InlineIf;
    var plain: set<string> := {"x"};
    assert "x" in FreeDirect(OPERAND, {}) && "x" in plain;
    assert !CleanOperand(OPERAND, plain, {});
    assert !CleanInlined(OPERAND_SEND, plain, {});
    assert !Clean(OPERAND_SEND, plain, {});
    var none: set<string> := {};
    assert plain - none == plain && none - plain == none;
    assert !AllClean(More(OPERAND_SEND, NoNodes), plain, none);
    assert !AllClean(OPERAND_METHOD.body, plain, none);
  }
}
