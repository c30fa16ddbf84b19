/** Block literals among the operands of a send compiled in line. The analysis counts each of them as
    inlined, but only the bodies the send runs are: a literal that is the receiver of a conditional, or
    the receiver or the bound of a to:do:, is compiled as a real block. */
module Operands {
  import opened Syntax
  import opened Analysis

  /** No such literal of this code uses directly a variable that lives in a frame slot. `plain` are
      the names in scope whose variable does: those of a method, a block or an inlined to:do: that no
      inner block needs. */
  predicate Clean(n: Node, plain: set<string>, iv: set<string>)
    decreases n, 3
  {
    match n
    case Assignment(_, v) => Clean(v, plain, iv)
    case Binary(_, l, r) => Clean(l, plain, iv) && Clean(r, plain, iv)
    case Send(_, r, a) =>
      if Inlined(n, iv) then CleanInlined(n, plain, iv) else Clean(r, plain, iv) && AllClean(a, plain, iv)
    case Block(_, _, _) => AllClean(n.body, PlainIn(n, plain, iv), iv - Elems(Declared(n)))
    case Return(v) => Clean(v, plain, iv)
    case _ => true
  }

  predicate AllClean(ns: Nodes, plain: set<string>, iv: set<string>)
    decreases ns, 0
  {
    match ns
    case NoNodes => true
    case More(h, t) => Clean(h, plain, iv) && AllClean(t, plain, iv)
  }

  /** The slot variables in scope inside a block. */
  function PlainIn(b: Node, plain: set<string>, iv: set<string>): set<string>
    requires b.Block?
  {
    var own := Elems(Declared(b));
    (plain - own) + (own - Captured(b, iv))
  }

  predicate CleanInlined(n: Node, plain: set<string>, iv: set<string>)
    requires Inlined(n, iv)
    decreases n, 2
  {
    match InlineShapeOf(n)
    case InlineIf => CleanOperand(n.recv, plain, iv) && AllClean(n.args.head.body, plain, iv)
    case InlineIfElse =>
      CleanOperand(n.recv, plain, iv) && AllClean(n.args.head.body, plain, iv) && AllClean(n.args.tail.head.body, plain, iv)
    case InlineWhile => AllClean(n.recv.body, plain, iv) && AllClean(n.args.head.body, plain, iv)
    case InlineToDo =>
      var b := ToDoBody(n);
      var x := b.params[0];
      CleanOperand(n.recv, plain, iv) && CleanOperand(n.args.head, plain, iv) && AllClean(b.body, plain + {x}, iv - {x})
  }

  predicate CleanOperand(n: Node, plain: set<string>, iv: set<string>)
    decreases n, 4
  {
    Clean(n, plain, iv) && (n.Block? ==> FreeDirect(n, iv) !! plain)
  }

  predicate CleanMethod(m: Method, ivars: set<string>) {
    var own := Elems(m.params + m.temps);
    AllClean(m.body, own - MethodCaptured(m, ivars), ivars - own)
  }

  /** A method without a block literal in such a place is clean. */
  predicate NoLiteralOperand(n: Node)
    decreases n, 1
  {
    match n
    case Assignment(_, v) => NoLiteralOperand(v)
    case Binary(_, l, r) => NoLiteralOperand(l) && NoLiteralOperand(r)
    case Send(_, r, a) =>
      NoLiteralOperand(r) && NoneLiteralOperand(a)
      && (InlineShapeOf(n) in {InlineIf, InlineIfElse, InlineToDo} ==> !r.Block?)
      && (InlineShapeOf(n) == InlineToDo ==> !a.head.Block?)
    case Block(_, _, body) => NoneLiteralOperand(body)
    case Return(v) => NoLiteralOperand(v)
    case _ => true
  }

  predicate NoneLiteralOperand(ns: Nodes)
    decreases ns, 0
  {
    match ns
    case NoNodes => true
    case More(h, t) => NoLiteralOperand(h) && NoneLiteralOperand(t)
  }

  lemma {:induction false} NoLiteralIsClean(n: Node, plain: set<string>, iv: set<string>)
    requires NoLiteralOperand(n)
    ensures Clean(n, plain, iv)
    decreases n, 1
  {
    hide Inlined, Captured, Elems;
    match n
    case Assignment(_, v) => NoLiteralIsClean(v, plain, iv);
    case Binary(_, l, r) => NoLiteralIsClean(l, plain, iv); NoLiteralIsClean(r, plain, iv);
    case Send(_, r, a) =>
      if Inlined(n, iv) {
        InlinedIsClean(n, plain, iv);
      } else {
        NoLiteralIsClean(r, plain, iv);
        NoneLiteralIsClean(a, plain, iv);
      }
    case Block(_, _, body) => NoneLiteralIsClean(body, PlainIn(n, plain, iv), iv - Elems(Declared(n)));
    case Return(v) => NoLiteralIsClean(v, plain, iv);
    case _ =>
  }

  lemma {:induction false} InlinedIsClean(n: Node, plain: set<string>, iv: set<string>)
    requires NoLiteralOperand(n) && Inlined(n, iv)
    ensures CleanInlined(n, plain, iv)
    decreases n, 0
  {
    assert InlineShapeOf(n) != NotInlined;
    hide Inlined;
    var h := n.args.head;
    assert NoneLiteralOperand(n.args) && NoLiteralOperand(h) && NoneLiteralOperand(n.args.tail);
    assert h.Block? ==> NoneLiteralOperand(h.body);
    if n.args.tail.More? { assert NoLiteralOperand(n.args.tail.head); }
    match InlineShapeOf(n)
    case InlineIf => NoLiteralIsClean(n.recv, plain, iv); NoneLiteralIsClean(h.body, plain, iv);
    case InlineIfElse =>
      NoLiteralIsClean(n.recv, plain, iv);
      NoneLiteralIsClean(h.body, plain, iv);
      NoneLiteralIsClean(n.args.tail.head.body, plain, iv);
    case InlineWhile => NoneLiteralIsClean(n.recv.body, plain, iv); NoneLiteralIsClean(h.body, plain, iv);
    case InlineToDo =>
      var b := ToDoBody(n);
      NoLiteralIsClean(n.recv, plain, iv);
      NoLiteralIsClean(h, plain, iv);
      NoneLiteralIsClean(b.body, plain + {b.params[0]}, iv - {b.params[0]});
  }

  lemma {:induction false} NoneLiteralIsClean(ns: Nodes, plain: set<string>, iv: set<string>)
    requires NoneLiteralOperand(ns)
    ensures AllClean(ns, plain, iv)
    decreases ns, 0
  {
    match ns
    case NoNodes =>
    case More(h, t) => NoLiteralIsClean(h, plain, iv); NoneLiteralIsClean(t, plain, iv);
  }
}
