/** Closure analysis: which variables of a scope an inner block captures, and which control
    sends are compiled in line. `iv` is the set of instance variables visible at a node. */
module Analysis {
  import opened Syntax

  /** The block argument of a to:do: of the inlineable shape. */
  function ToDoBody(n: Node): Node
    requires InlineShapeOf(n) == InlineToDo
  {
    n.args.tail.head
  }

  /** Is this send compiled in line? A to:do: is not when an inner block captures its argument. */
  predicate Inlined(n: Node, iv: set<string>)
    decreases n, 3
  {
    var shape := InlineShapeOf(n);
    shape != NotInlined &&
    (shape == InlineToDo ==>
       var b := ToDoBody(n); b.params[0] !in InnerAll(b.body, iv - Elems(Declared(b))))
  }

  /** Names referenced by the code of the enclosing scope itself (inlined bodies included). */
  function Direct(n: Node, iv: set<string>): set<string>
    decreases n, 4
  {
    match n
    case Ident(x) => {x}
    case Assignment(x, v) => {x} + Direct(v, iv)
    case Binary(_, l, r) => Direct(l, iv) + Direct(r, iv)
    case Send(_, r, a) =>
      if Inlined(n, iv) then SplitDirect(r, iv) + SplitDirectAll(a, iv)
      else Direct(r, iv) + DirectAll(a, iv)
    case Return(v) => Direct(v, iv)
    case _ => {}
  }

  function DirectAll(ns: Nodes, iv: set<string>): set<string>
    decreases ns, 0
  {
    match ns
    case NoNodes => {}
    case More(h, t) => Direct(h, iv) + DirectAll(t, iv)
  }

  /** Names that blocks nested in this code need from it or from a scope around it. */
  function Inner(n: Node, iv: set<string>): set<string>
    decreases n, 4
  {
    match n
    case Assignment(_, v) => Inner(v, iv)
    case Binary(_, l, r) => Inner(l, iv) + Inner(r, iv)
    case Send(_, r, a) =>
      if Inlined(n, iv) then SplitInner(r, iv) + SplitInnerAll(a, iv)
      else Inner(r, iv) + InnerAll(a, iv)
    case Block(_, _, _) => FreeDirect(n, iv) + FreeInner(n, iv)
    case Return(v) => Inner(v, iv)
    case _ => {}
  }

  function InnerAll(ns: Nodes, iv: set<string>): set<string>
    decreases ns, 0
  {
    match ns
    case NoNodes => {}
    case More(h, t) => Inner(h, iv) + InnerAll(t, iv)
  }

  /** The free names of a block, split: those its own code uses, those its inner blocks need. */
  function FreeDirect(b: Node, iv: set<string>): set<string>
    requires b.Block?
    decreases b, 1
  {
    var own := Elems(Declared(b));
    DirectAll(b.body, iv - own) - own - (iv - own)
  }

  function FreeInner(b: Node, iv: set<string>): set<string>
    requires b.Block?
    decreases b, 1
  {
    var own := Elems(Declared(b));
    InnerAll(b.body, iv - own) - own - (iv - own)
  }

  /** The names of an operand of an inlined send. Every block literal among the operands counts
      as inlined here, a receiver or a loop bound included. */
  function SplitDirect(n: Node, iv: set<string>): set<string>
    decreases n, 5
  {
    if n.Block? then FreeDirect(n, iv) else Direct(n, iv)
  }

  function SplitInner(n: Node, iv: set<string>): set<string>
    decreases n, 5
  {
    if n.Block? then FreeInner(n, iv) else Inner(n, iv)
  }

  function SplitDirectAll(ns: Nodes, iv: set<string>): set<string>
    decreases ns, 1
  {
    match ns
    case NoNodes => {}
    case More(h, t) => SplitDirect(h, iv) + SplitDirectAll(t, iv)
  }

  function SplitInnerAll(ns: Nodes, iv: set<string>): set<string>
    decreases ns, 1
  {
    match ns
    case NoNodes => {}
    case More(h, t) => SplitInner(h, iv) + SplitInnerAll(t, iv)
  }

  /** The bindings of a block that live in its captured dictionary. */
  function Captured(b: Node, iv: set<string>): set<string>
    requires b.Block?
  {
    var own := Elems(Declared(b));
    own * InnerAll(b.body, iv - own)
  }

  /** Names assigned by the code of a scope itself, outside every block literal: at method level
      the analysis takes an assignment for a declaration. */
  function Assigned(n: Node): set<string> {
    match n
    case Assignment(x, v) => {x} + Assigned(v)
    case Binary(_, l, r) => Assigned(l) + Assigned(r)
    case Send(_, r, a) => Assigned(r) + AssignedAll(a)
    case Return(v) => Assigned(v)
    case _ => {}
  }

  function AssignedAll(ns: Nodes): set<string> {
    match ns
    case NoNodes => {}
    case More(h, t) => Assigned(h) + AssignedAll(t)
  }

  function MethodCaptured(m: Method, ivars: set<string>): set<string> {
    var own := Elems(m.params + m.temps);
    (own + AssignedAll(m.body)) * InnerAll(m.body, ivars - own)
  }

  // ----- Facts about the sets -----

  /** No instance variable visible at a node is ever needed by an inner block from a scope. */
  lemma {:induction false} InnerAvoidsInstVars(n: Node, iv: set<string>)
    ensures Inner(n, iv) !! iv
    decreases n, 1
  {
    match n
    case Assignment(_, v) => InnerAvoidsInstVars(v, iv);
    case Binary(_, l, r) => InnerAvoidsInstVars(l, iv); InnerAvoidsInstVars(r, iv);
    case Send(_, r, a) =>
      InnerAvoidsInstVars(r, iv);
      InnerAllAvoidsInstVars(a, iv);
    case Return(v) => InnerAvoidsInstVars(v, iv);
    case _ =>
  }

  lemma {:induction false} InnerAllAvoidsInstVars(ns: Nodes, iv: set<string>)
    ensures InnerAll(ns, iv) !! iv
    ensures SplitInnerAll(ns, iv) !! iv
    decreases ns, 0
  {
    match ns
    case NoNodes =>
    case More(h, t) => InnerAvoidsInstVars(h, iv); InnerAllAvoidsInstVars(t, iv);
  }

  lemma {:induction false} AssignedIsInScope(n: Node, bound: set<string>, args: set<string>, iv: set<string>)
    requires WellFormed(n, bound, args, iv)
    ensures Assigned(n) <= bound + iv
  {
    match n
    case Assignment(_, v) => AssignedIsInScope(v, bound, args, iv);
    case Binary(_, l, r) => AssignedIsInScope(l, bound, args, iv); AssignedIsInScope(r, bound, args, iv);
    case Send(_, r, a) => AssignedIsInScope(r, bound, args, iv); AllAssignedIsInScope(a, bound, args, iv);
    case Return(v) => AssignedIsInScope(v, bound, args, iv);
    case _ =>
  }

  lemma {:induction false} AllAssignedIsInScope(ns: Nodes, bound: set<string>, args: set<string>, iv: set<string>)
    requires AllWellFormed(ns, bound, args, iv)
    ensures AssignedAll(ns) <= bound + iv
  {
    match ns
    case NoNodes =>
    case More(h, t) => AssignedIsInScope(h, bound, args, iv); AllAssignedIsInScope(t, bound, args, iv);
  }

  /** In a method the compiler accepts, what it captures is exactly its own arguments and
      temporaries that inner blocks need: an assigned instance variable is never captured. */
  lemma MethodCapturesOnlyItsOwn(m: Method, ivars: set<string>)
    requires MethodWellFormed(m, ivars)
    ensures MethodCaptured(m, ivars)
         == Elems(m.params + m.temps) * InnerAll(m.body, ivars - Elems(m.params + m.temps))
  {
    var own := Elems(m.params + m.temps);
    AllAssignedIsInScope(m.body, own, Elems(m.params), ivars - own);
    InnerAllAvoidsInstVars(m.body, ivars - own);
  }
}
