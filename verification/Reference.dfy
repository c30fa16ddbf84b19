/** The meaning of a method: variables are mutable cells, a block closes over the environment
    it is written in, and every control message is a real send of real blocks. */
module Reference {
  import opened Syntax
  import opened Resolve

  /** Why a run ends before its code does. */
  datatype Why<V> =
    | Returned(v: V)               // `^`: the method answers v
    | Dnu(sel: Selector, recv: V)  // message not understood, with no handler
    | LoopNotBoolean(sel: Selector, guard: V)
    | NotInteger(left: V, right: V)  // an operator or to:do: met something else than Integers
    | NotABlock
    | WrongArgCount
    | NoDictionary

  type Env = map<string, nat>

  datatype Value = IntV(n: int) | BoolV(b: bool) | NilV | SelfV | BlockV(block: Node, env: Env)

  datatype State = State(cells: seq<Value>, self: map<string, Value>)

  datatype Result =
    | Val(v: Value, st: State)
    | Vals(vs: seq<Value>, st: State)
    | Stop(why: Why<Value>, st: State)
    | Timeout

  function ReadCell(st: State, c: nat): Value { if c < |st.cells| then st.cells[c] else NilV }

  function ReadInstVar(st: State, x: string): Value { if x in st.self then st.self[x] else NilV }

  function WriteCell(st: State, c: nat, v: Value): State {
    if c < |st.cells| then st.(cells := st.cells[c := v]) else st
  }

  function Compute(op: BinOp, a: int, b: int): Value {
    match op
    case Add => IntV(a + b)
    case Sub => IntV(a - b)
    case Le => BoolV(a <= b)
    case Lt => BoolV(a < b)
    case Ge => BoolV(a >= b)
    case Gt => BoolV(a > b)
  }

  function Nils(k: nat): seq<Value> { seq(k, _ => NilV) }

  /** Fresh cells for the arguments and temporaries of an activation. */
  function Activate(env: Env, names: seq<string>, st: State): Env {
    env + Number(names, |st.cells|)
  }

  /** `strictLoops`: does a while loop written with literal blocks insist on a Boolean condition,
      as its compiled form does, or follow the whileTrue:/whileFalse: primitives? */
  function Eval(n: Node, env: Env, st: State, strictLoops: bool, fuel: nat): (r: Result)
    ensures !r.Vals?
    decreases fuel, 2, n
  {
    match n
    case IntLit(k) => Val(IntV(k), st)
    case BoolLit(b) => Val(BoolV(b), st)
    case NilLit => Val(NilV, st)
    case SelfRef => Val(SelfV, st)
    case Ident(x) => Val(if x in env then ReadCell(st, env[x]) else ReadInstVar(st, x), st)
    case Assignment(x, e) =>
      var r := Eval(e, env, st, strictLoops, fuel);
      if !r.Val? then r
      else if x in env then Val(r.v, WriteCell(r.st, env[x], r.v))
      else Val(r.v, r.st.(self := r.st.self[x := r.v]))
    case Binary(op, l, r) =>
      var a := Eval(l, env, st, strictLoops, fuel);
      if !a.Val? then a
      else
        var b := Eval(r, env, a.st, strictLoops, fuel);
        if !b.Val? then b
        else if a.v.IntV? && b.v.IntV? then Val(Compute(op, a.v.n, b.v.n), b.st)
        else Stop(NotInteger(a.v, b.v), b.st)
    case Send(sel, r, a) =>
      var recv := Eval(r, env, st, strictLoops, fuel);
      if !recv.Val? then recv
      else
        var args := EvalArgs(a, env, recv.st, strictLoops, fuel);
        if !args.Vals? then args
        else Apply(sel, recv.v, args.vs, args.st, strictLoops, InlineShapeOf(n) == InlineWhile, fuel)
    case Block(_, _, _) => Val(BlockV(n, env), st)
    case Return(e) =>
      var r := Eval(e, env, st, strictLoops, fuel);
      if !r.Val? then r else Stop(Returned(r.v), r.st)
  }

  function EvalArgs(ns: Nodes, env: Env, st: State, strictLoops: bool, fuel: nat): (r: Result)
    ensures !r.Val?
    decreases fuel, 2, ns
  {
    match ns
    case NoNodes => Vals([], st)
    case More(h, t) =>
      var a := Eval(h, env, st, strictLoops, fuel);
      if !a.Val? then a
      else
        var rest := EvalArgs(t, env, a.st, strictLoops, fuel);
        if !rest.Vals? then rest else Vals([a.v] + rest.vs, rest.st)
  }

  /** A statement list: the value of the last statement, nil when there is none. */
  function EvalBody(ns: Nodes, env: Env, st: State, strictLoops: bool, fuel: nat): (r: Result)
    ensures !r.Vals?
    decreases fuel, 2, ns
  {
    match ns
    case NoNodes => Val(NilV, st)
    case More(h, t) =>
      var a := Eval(h, env, st, strictLoops, fuel);
      if t.NoNodes? || !a.Val? then a else EvalBody(t, env, a.st, strictLoops, fuel)
  }

  function Call(f: Value, args: seq<Value>, st: State, strictLoops: bool, fuel: nat): (r: Result)
    ensures !r.Vals?
    decreases fuel, 0
  {
    if !f.BlockV? || !f.block.Block? then Stop(NotABlock, st)
    else if |args| != |f.block.params| then Stop(WrongArgCount, st)
    else if fuel == 0 then Timeout
    else
      EvalBody(f.block.body, Activate(f.env, Declared(f.block), st),
               st.(cells := st.cells + args + Nils(|f.block.temps|)), strictLoops, fuel - 1)
  }

  /** The primitives behind the control messages. */
  function Apply(sel: Selector, recv: Value, args: seq<Value>, st: State,
                 strictLoops: bool, literalLoop: bool, fuel: nat): (r: Result)
    ensures !r.Vals?
    decreases fuel, 1
  {
    match (sel, recv)
    case (Value(k), BlockV(_, _)) =>
      if k == |args| <= 4 then Call(recv, args, st, strictLoops, fuel) else Stop(Dnu(sel, recv), st)
    case (IfTrue, BoolV(b)) =>
      if |args| != 1 then Stop(Dnu(sel, recv), st)
      else if b then Call(args[0], [], st, strictLoops, fuel) else Val(NilV, st)
    case (IfFalse, BoolV(b)) =>
      if |args| != 1 then Stop(Dnu(sel, recv), st)
      else if b then Val(NilV, st) else Call(args[0], [], st, strictLoops, fuel)
    case (IfTrueIfFalse, BoolV(b)) =>
      if |args| != 2 then Stop(Dnu(sel, recv), st)
      else Call(if b then args[0] else args[1], [], st, strictLoops, fuel)
    case (IfFalseIfTrue, BoolV(b)) =>
      if |args| != 2 then Stop(Dnu(sel, recv), st)
      else Call(if b then args[1] else args[0], [], st, strictLoops, fuel)
    case (WhileTrue, BlockV(_, _)) =>
      if |args| != 1 then Stop(Dnu(sel, recv), st)
      else While(sel, recv, args[0], st, strictLoops, strictLoops && literalLoop, fuel)
    case (WhileFalse, BlockV(_, _)) =>
      if |args| != 1 then Stop(Dnu(sel, recv), st)
      else While(sel, recv, args[0], st, strictLoops, strictLoops && literalLoop, fuel)
    case (ToDo, _) =>
      if |args| != 2 then Stop(Dnu(sel, recv), st)
      else if !recv.IntV? || !args[0].IntV? then Stop(NotInteger(recv, args[0]), st)
      else Count(recv.n, recv.n, args[0].n, args[1], st, strictLoops, fuel)
    case _ => Stop(Dnu(sel, recv), st)
  }

  function While(sel: Selector, cond: Value, body: Value, st: State,
                 strictLoops: bool, strict: bool, fuel: nat): (r: Result)
    ensures !r.Vals?
    decreases fuel, 0
  {
    if fuel == 0 then Timeout
    else
      var c := Call(cond, [], st, strictLoops, fuel - 1);
      if !c.Val? then c
      else if strict && !c.v.BoolV? then Stop(LoopNotBoolean(sel, c.v), c.st)
      else if (c.v == BoolV(true)) != (sel == WhileTrue) then Val(NilV, c.st)
      else
        var b := Call(body, [], c.st, strictLoops, fuel - 1);
        if !b.Val? then b else While(sel, cond, body, b.st, strictLoops, strict, fuel - 1)
  }

  function Count(start: int, i: int, stop: int, body: Value, st: State, strictLoops: bool, fuel: nat): (r: Result)
    ensures !r.Vals?
    decreases fuel, 0
  {
    if i > stop then Val(IntV(start), st)
    else if fuel == 0 then Timeout
    else
      var b := Call(body, [IntV(i)], st, strictLoops, fuel - 1);
      if !b.Val? then b else Count(start, i + 1, stop, body, b.st, strictLoops, fuel - 1)
  }

  /** Run a method on `self`; falling off its end answers self. */
  function Run(m: Method, args: seq<Value>, self: map<string, Value>, strictLoops: bool, fuel: nat): Result {
    var names := m.params + m.temps;
    var st := State(args + Nils(|m.temps|), self);
    var r := EvalBody(m.body, Activate(map[], names, State([], self)), st, strictLoops, fuel);
    if r.Val? then Stop(Returned(SelfV), r.st) else r
  }
}
