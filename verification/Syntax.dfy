/** The expressions of a method body, as the parser hands them to the compiler.

    A statement list and an argument list are both `Nodes`. `Return` is a statement
    (`^ e`) in the source language; nothing below depends on where it stands. */
module Syntax {

  /** The binary selectors that compile to a SmallInteger fast-path instruction. */
  datatype BinOp = Add | Sub | Le | Lt | Ge | Gt

  datatype Selector =
    | Value(argCount: nat)  // value, value:, value:value:, ...
    | IfTrue
    | IfFalse
    | IfTrueIfFalse
    | IfFalseIfTrue
    | WhileTrue
    | WhileFalse
    | ToDo
    | Other(text: string, colons: nat)

  datatype Node =
    | IntLit(n: int)
    | BoolLit(b: bool)
    | NilLit
    | SelfRef
    | Ident(name: string)
    | Assignment(name: string, value: Node)
    | Binary(op: BinOp, left: Node, right: Node)
    | Send(sel: Selector, recv: Node, args: Nodes)
    | Block(params: seq<string>, temps: seq<string>, body: Nodes)
    | Return(value: Node)

  datatype Nodes = NoNodes | More(head: Node, tail: Nodes)

  /** The number of arguments a selector takes: one per colon. */
  function Arity(sel: Selector): nat {
    match sel
    case Value(k) => k
    case IfTrueIfFalse => 2
    case IfFalseIfTrue => 2
    case ToDo => 2
    case Other(_, k) => k
    case _ => 1
  }

  function ArgCount(ns: Nodes): nat {
    match ns
    case NoNodes => 0
    case More(_, t) => 1 + ArgCount(t)
  }

  datatype Method = Method(params: seq<string>, temps: seq<string>, body: Nodes)

  datatype InlineShape = NotInlined | InlineIf | InlineIfElse | InlineWhile | InlineToDo

  /** A block literal with no parameter and no temporary. */
  predicate IsInlineableBlock(n: Node) {
    n.Block? && n.params == [] && n.temps == []
  }

  /** The control-send shape the compiler may inline, decided from the tree alone. */
  function InlineShapeOf(n: Node): InlineShape {
    if !n.Send? then NotInlined
    else match (n.sel, n.args)
      case (IfTrue, More(b, NoNodes)) => if IsInlineableBlock(b) then InlineIf else NotInlined
      case (IfFalse, More(b, NoNodes)) => if IsInlineableBlock(b) then InlineIf else NotInlined
      case (IfTrueIfFalse, More(a, More(b, NoNodes))) =>
        if IsInlineableBlock(a) && IsInlineableBlock(b) then InlineIfElse else NotInlined
      case (IfFalseIfTrue, More(a, More(b, NoNodes))) =>
        if IsInlineableBlock(a) && IsInlineableBlock(b) then InlineIfElse else NotInlined
      case (WhileTrue, More(b, NoNodes)) =>
        if IsInlineableBlock(n.recv) && IsInlineableBlock(b) then InlineWhile else NotInlined
      case (WhileFalse, More(b, NoNodes)) =>
        if IsInlineableBlock(n.recv) && IsInlineableBlock(b) then InlineWhile else NotInlined
      case (ToDo, More(e, More(b, NoNodes))) =>
        if b.Block? && |b.params| == 1 && b.temps == [] then InlineToDo else NotInlined
      case _ => NotInlined
  }

  function Elems(s: seq<string>): set<string> { set x | x in s }

  predicate Distinct(s: seq<string>) {
    forall i, j :: 0 <= i < j < |s| ==> s[i] != s[j]
  }

  function Declared(b: Node): seq<string>
    requires b.Block?
  {
    b.params + b.temps
  }

  /** Names the compiler invents for the two hidden slots of an inlined to:do: start this way. */
  const HIDDEN_PREFIX := "__td_"

  predicate IsUserName(x: string) { !(HIDDEN_PREFIX <= x) && x != "self" }

  /** The names a scope may declare: distinct, and none of the compiler's own. */
  predicate DeclaresOk(names: seq<string>) {
    Distinct(names) && forall i :: 0 <= i < |names| ==> IsUserName(names[i])
  }

  /** The programs the compiler accepts: every name is a variable in scope (`bound`) or a visible
      instance variable (`iv`), a send has as many arguments as its selector says, no argument
      (`args`) is assigned, no name is declared twice. */
  predicate WellFormed(n: Node, bound: set<string>, args: set<string>, iv: set<string>) {
    match n
    case Ident(x) => x in bound || x in iv
    case Assignment(x, v) =>
      ((x in bound && x !in args) || (x !in bound && x in iv)) && WellFormed(v, bound, args, iv)
    case Binary(_, l, r) => WellFormed(l, bound, args, iv) && WellFormed(r, bound, args, iv)
    case Send(sel, r, a) =>
      ArgCount(a) == Arity(sel) && WellFormed(r, bound, args, iv) && AllWellFormed(a, bound, args, iv)
    case Block(ps, ts, body) =>
      DeclaresOk(ps + ts) &&
      AllWellFormed(body, bound + Elems(ps + ts), (args - Elems(ps + ts)) + Elems(ps), iv - Elems(ps + ts))
    case Return(v) => WellFormed(v, bound, args, iv)
    case _ => true
  }

  predicate AllWellFormed(ns: Nodes, bound: set<string>, args: set<string>, iv: set<string>) {
    match ns
    case NoNodes => true
    case More(h, t) => WellFormed(h, bound, args, iv) && AllWellFormed(t, bound, args, iv)
  }

  predicate MethodWellFormed(m: Method, ivars: set<string>) {
    DeclaresOk(m.params + m.temps) &&
    AllWellFormed(m.body, Elems(m.params + m.temps), Elems(m.params), ivars - Elems(m.params + m.temps))
  }
}
