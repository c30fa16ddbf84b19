/** The instructions of resolved code. Jumps are relative, so the words of an expression do not
    depend on where they stand; constants and blocks are numbered as they come up. */
module Codegen {
  import opened Syntax
  import opened Resolve
  import opened Bytecode
  import opened Layout

  datatype Pool = Pool(consts: seq<Const>, blocks: seq<Module>)

  predicate Extends(p: Pool, q: Pool) { p.consts <= q.consts && p.blocks <= q.blocks }

  /** `ok`: every operand fits 24 bits, so the emitter raised no error. `near`: no forward jump
      is longer than that, a limit the emitter does not check. */
  datatype Coded = Coded(words: seq<Word>, pool: Pool, ok: bool, near: bool)

  function Nothing(p: Pool): Coded { Coded([], p, true, true) }

  function Then(a: Coded, b: Coded): Coded {
    Coded(a.words + b.words, b.pool, a.ok && b.ok, a.near && b.near)
  }

  function One(op: Op, arg: byte, p: Pool): Coded { Coded([Word(op, arg)], p, true, true) }

  function Instr(op: Op, arg: nat, p: Pool): Coded {
    Coded(Wide(op, arg), p, arg <= MAX_OPERAND, true)
  }

  /** An instruction whose operand is a symbol of the pool. */
  function Sym(op: Op, c: Const, p: Pool): (r: Coded)
    ensures Extends(p, r.pool)
  {
    Instr(op, Find(p.consts, c), p.(consts := Interned(p.consts, c)))
  }

  function Literal(n: int, p: Pool): Coded {
    Instr(PushConst, |p.consts|, p.(consts := p.consts + [IntConst(n)]))
  }

  /** A resolved forward jump over `offset` words. */
  function JumpOver(op: Op, offset: nat, p: Pool): (r: Coded)
    ensures r.pool == p
  {
    Coded(Wide(op, offset), p, true, offset <= MAX_OPERAND)
  }

  /** A loop: what decides whether to go on, the exit jump, the body, what follows the body. */
  datatype LoopParts = LoopParts(head: Coded, exit: Op, body: Coded, tail: Coded)

  predicate LoopChained(l: LoopParts) {
    l.exit != Extend && Extends(l.head.pool, l.body.pool) && Extends(l.body.pool, l.tail.pool)
  }

  /** The loop before it is closed: its exit jump is still one word. */
  function Open(l: LoopParts): (c: Coded)
    ensures |l.head.words| < |c.words| && c.words[|l.head.words|].op == l.exit
  {
    Then(l.head, Then(One(l.exit, 0, l.head.pool), Then(l.body, l.tail)))
  }

  function LoopCode(l: LoopParts): (r: Coded)
    ensures r.words != [] && r.pool == l.tail.pool
  {
    var c, exit := Open(l), |l.head.words|;
    Coded(Closed(c.words, 0, exit), c.pool,
          c.ok && BackOperand(|c.words| + ExitWidth(c.words, exit)) <= MAX_OPERAND, c.near)
  }

  datatype Branches = Branches(test: Coded, guard: Coded, jump: Coded, first: Coded, skip: Coded, second: Coded)

  predicate Chained(b: Branches) {
    && Extends(b.test.pool, b.guard.pool) && Extends(b.guard.pool, b.jump.pool) && Extends(b.jump.pool, b.first.pool)
    && Extends(b.first.pool, b.skip.pool) && Extends(b.skip.pool, b.second.pool)
  }

  function Joined(b: Branches): Coded {
    Then(b.test, Then(b.guard, Then(b.jump, Then(b.first, Then(b.skip, b.second)))))
  }

  function JumpUnless(onTrue: bool): Op { if onTrue then JumpIfFalse else JumpIfTrue }

  function SendOp(sel: Selector): Op { if Arity(sel) == 0 then SendUnary else SendKeyword }

  function Code(e: RExpr, p: Pool): (c: Coded)
    ensures c.words != [] && Extends(p, c.pool)
    decreases e, 1
  {
    hide Closed, Wide, Interned, Find, WideWith, BackOperand, ExitWidth, Parts, WhileParts, CountParts, Setup, BodyCode, ArgsCode,
         BlockCode, LoopCode, Open, PushClosure;
    match e
    case PushInt(n) => Literal(n, p)
    case PushBool(b) => One(if b then PushTrue else PushFalse, 0, p)
    case PushNil => One(PushNilOp, 0, p)
    case PushSelf => One(PushSelfOp, 0, p)
    case LoadLocal(s) => Instr(PushLocal, s, p)
    case StoreLocal(s, value) => var v := Code(value, p); Then(v, Then(One(Dup, 0, v.pool), Instr(Op.StoreLocal, s, v.pool)))
    case LoadCaptured(x) => Sym(PushCaptured, NameConst(x), p)
    case StoreCaptured(x, value) =>
      var v := Code(value, p); Then(v, Then(One(Dup, 0, v.pool), Sym(Op.StoreCaptured, NameConst(x), v.pool)))
    case LoadInstVar(x) => Sym(PushInstVar, NameConst(x), p)
    case StoreInstVar(x, value) =>
      var v := Code(value, p); Then(v, Then(One(Dup, 0, v.pool), Sym(Op.StoreInstVar, NameConst(x), v.pool)))
    case Arith(op, l, r) =>
      var a := Code(l, p);
      var b := Code(r, a.pool);
      Then(a, Then(b, Sym(BinInt(op), OperatorConst(op), b.pool)))
    case SendMsg(sel, recv, args) =>
      var a := Code(recv, p);
      var b := ArgsCode(args, a.pool);
      Then(a, Then(b, Sym(SendOp(sel), SelectorConst(sel), b.pool)))
    case MakeBlock(blk) => PushClosure(BlockCode(blk, false), blk.argCount, p)
    case ReturnFromHome(value) => var v := Code(value, p); Then(v, One(Op.Return, 0, v.pool))
    case Cond(_, _, _, _) => Joined(Parts(e, p))
    case CondElse(_, _, _, _) => Joined(Parts(e, p))
    case Loop(_, _, _, _) => var l := WhileParts(e, p); Then(LoopCode(l), One(PushNilOp, 0, l.tail.pool))
    case CountLoop(_, _, _, _, _) =>
      var a := Setup(e, p);
      Then(a, LoopCode(CountParts(e, a.pool)))
  }

  /** The selector is interned before the condition is compiled. */
  function WhileParts(e: RExpr, p: Pool): (l: LoopParts)
    requires e.Loop?
    ensures Extends(p, l.head.pool) && LoopChained(l)
    decreases e, 0
  {
    hide Wide, Interned, Find;
    var c := SelectorConst(e.sel);
    var g := BodyCode(e.guard, p.(consts := Interned(p.consts, c)));
    var h := Then(g, Instr(AssertBoolOrDnu, Find(p.consts, c), g.pool));
    var b := BodyCode(e.body, h.pool);
    LoopParts(h, JumpUnless(e.onTrue), b, One(Pop, 0, b.pool))
  }

  /** to:do: keeps its receiver on the stack, as the value of the whole, and starts its counter
      and bound in their hidden slots. */
  function Setup(e: RExpr, p: Pool): (a: Coded)
    requires e.CountLoop?
    ensures Extends(p, a.pool)
    decreases e, 0
  {
    var s := Code(e.start, p);
    var t := Code(e.stop, s.pool);
    Then(s, Then(One(Dup, 0, s.pool), Then(Instr(Op.StoreLocal, e.slotI, s.pool),
      Then(t, Instr(Op.StoreLocal, e.slotEnd, t.pool)))))
  }

  function CountParts(e: RExpr, p: Pool): (l: LoopParts)
    requires e.CountLoop?
    ensures Extends(p, l.head.pool) && LoopChained(l)
    decreases e, 0
  {
    hide Wide, Interned, Find;
    var h := Then(Instr(PushLocal, e.slotI, p), Then(Instr(PushLocal, e.slotEnd, p), Sym(BinInt(Le), OperatorConst(Le), p)));
    var b := BodyCode(e.body, h.pool);
    LoopParts(h, JumpIfFalse, b, Then(One(Pop, 0, b.pool), Increment(e.slotI, b.pool)))
  }

  /** The six stretches of a conditional: the test, the Boolean guard, the jump over the first
      branch, that branch, the jump over the second and the second. */
  function Parts(e: RExpr, p: Pool): (b: Branches)
    requires e.Cond? || e.CondElse?
    ensures Extends(p, b.test.pool) && Chained(b) && b.first.words != []
    decreases e, 0
  {
    hide Wide, WideWith, Interned, Find;
    match e
    case Cond(sel, onTrue, test, body) =>
      var t := Code(test, p);
      var a := Sym(AssertBoolOrDnu, SelectorConst(sel), t.pool);
      var b := BodyCode(body, a.pool);
      var k := JumpOver(Jump, 1, b.pool);
      Branches(t, a, JumpOver(JumpUnless(onTrue), |b.words| + |k.words|, a.pool), b, k, One(PushNilOp, 0, b.pool))
    case CondElse(sel, test, thn, els) =>
      var t := Code(test, p);
      var a := Sym(AssertBoolOrDnu, SelectorConst(sel), t.pool);
      var b := BodyCode(thn, a.pool);
      var c := BodyCode(els, b.pool);
      var k := JumpOver(Jump, |c.words|, b.pool);
      Branches(t, a, JumpOver(JumpIfFalse, |b.words| + |k.words|, a.pool), b, k, c)
  }

  /** Add one to a slot. */
  function Increment(slot: nat, p: Pool): (c: Coded)
    ensures Extends(p, c.pool)
  {
    var p' := p.(consts := p.consts + [IntConst(1)]);
    var add := Sym(BinInt(Add), OperatorConst(Add), p');
    Then(Instr(PushLocal, slot, p'), Then(Instr(PushConst, |p.consts|, p'), Then(add, Instr(Op.StoreLocal, slot, add.pool))))
  }

  function ArgsCode(es: RExprs, p: Pool): (c: Coded)
    ensures Extends(p, c.pool)
    decreases es, 0
  {
    match es
    case RNil => Nothing(p)
    case RCons(e, t) => var a := Code(e, p); Then(a, ArgsCode(t, a.pool))
  }

  /** The value of a body is the value of its last statement; the others are dropped. */
  function BodyCode(es: RExprs, p: Pool): (c: Coded)
    ensures c.words != [] && Extends(p, c.pool)
    decreases es, 0
  {
    match es
    case RNil => One(PushNilOp, 0, p)
    case RCons(e, RNil) => Code(e, p)
    case RCons(e, t) => var a := Code(e, p); Then(a, Then(One(Pop, 0, a.pool), BodyCode(t, a.pool)))
  }

  /** A block is compiled into a module of its own before the instruction that refers to it. */
  function PushClosure(c: Coded, argCount: nat, p: Pool): (r: Coded)
    ensures r.words != [] && Extends(p, r.pool)
  {
    Then(Coded([], p, c.ok, c.near), Instr(PushBlock, |p.blocks|, p.(blocks := p.blocks + [Packed(c, argCount)])))
  }

  function Packed(c: Coded, argCount: nat): Module { Module(c.words, c.pool.consts, c.pool.blocks, argCount) }

  /** What a binding of the prologue starts with. */
  function SourceCode(d: Define, p: Pool): (c: Coded)
    ensures c.pool == p
  {
    match d.fromSlot
    case FromSlot(s) => Instr(PushLocal, s, p)
    case FromNil => One(PushNilOp, 0, p)
  }

  function DefineCode(d: Define, p: Pool): (c: Coded)
    ensures Extends(p, c.pool)
  {
    // The name is interned before the value is pushed.
    var sym := Sym(DefineCaptured, NameConst(d.name), p);
    Then(SourceCode(d, sym.pool), sym)
  }

  function DefinesCode(ds: seq<Define>, p: Pool): (c: Coded)
    ensures Extends(p, c.pool)
  {
    if ds == [] then Nothing(p)
    else var a := DefineCode(ds[0], p); Then(a, DefinesCode(ds[1..], a.pool))
  }

  /** The capture prologue: a method opens a root dictionary, a block a child of its own. */
  function Prologue(ds: seq<Define>, isMethod: bool, p: Pool): (c: Coded)
    ensures Extends(p, c.pool)
  {
    if ds == [] then Nothing(p)
    else Then(One(MakeCaptured, if isMethod then 0 else 1, p), DefinesCode(ds, p))
  }

  function EndsWithReturn(es: RExprs): bool {
    match es
    case RNil => false
    case RCons(e, RNil) => e.ReturnFromHome?
    case RCons(_, t) => EndsWithReturn(t)
  }

  /** A block answers its last value; a method answers self unless its last statement is `^`. */
  function BlockCode(blk: RBlock, isMethod: bool): Coded
    decreases blk, 2
  {
    var d := Prologue(blk.defines, isMethod, Pool([], []));
    var b := BodyCode(blk.body, d.pool);
    var end :=
      if !isMethod then One(ReturnTop, 0, b.pool)
      else if EndsWithReturn(blk.body) then Nothing(b.pool)
      else Then(if blk.body.RNil? then Nothing(b.pool) else One(Pop, 0, b.pool),
                Then(One(PushLocal, 0, b.pool), One(Op.Return, 0, b.pool)));
    Then(d, Then(b, end))
  }

  function Assembled(blk: RBlock, isMethod: bool): Module { Packed(BlockCode(blk, isMethod), blk.argCount) }

  // ----- The code of control sends, part by part -----

  lemma PartsAre(e: RExpr, pool: Pool)
    requires e.Cond? || e.CondElse?
    ensures var b := Parts(e, pool);
      && b.test == Code(e.test, pool)
      && b.guard == Sym(AssertBoolOrDnu, SelectorConst(e.sel), b.test.pool)
      && b.jump == JumpOver(if e.Cond? then JumpUnless(e.onTrue) else JumpIfFalse, |b.first.words| + |b.skip.words|, b.guard.pool)
      && b.first == BodyCode(if e.Cond? then e.body else e.thn, b.guard.pool)
      && b.skip == JumpOver(Jump, |b.second.words|, b.first.pool)
      && b.second == if e.Cond? then One(PushNilOp, 0, b.first.pool) else BodyCode(e.els, b.first.pool)
  {
    hide Code, BodyCode, Sym, Wide;
  }

  lemma IsJoined(e: RExpr, pool: Pool)
    requires e.Cond? || e.CondElse?
    ensures Code(e, pool) == Joined(Parts(e, pool))
  {
    hide Parts, Joined, WhileParts, CountParts, Setup, BodyCode, ArgsCode, LoopCode, Literal, Sym, Instr, BlockCode;
  }

  lemma OpenWords(l: LoopParts)
    ensures var w, exit := Open(l).words, |l.head.words|;
      && w[..exit] == l.head.words && w[exit + 1..] == l.body.words + l.tail.words
      && Open(l).pool == l.tail.pool && Open(l).ok == (l.head.ok && l.body.ok && l.tail.ok)
      && Open(l).near == (l.head.near && l.body.near && l.tail.near)
      && |w| == exit + 1 + |l.body.words| + |l.tail.words|
  {
  }

  lemma WhileIs(e: RExpr, pool: Pool)
    requires e.Loop?
    ensures var c := SelectorConst(e.sel);
      var q := pool.(consts := Interned(pool.consts, c));
      var g := BodyCode(e.guard, q);
      var l := WhileParts(e, pool);
      && Code(e, pool) == Then(LoopCode(l), One(PushNilOp, 0, l.tail.pool))
      && l.head == Then(g, Instr(AssertBoolOrDnu, Find(pool.consts, c), g.pool))
      && l.exit == JumpUnless(e.onTrue) && l.body == BodyCode(e.body, l.head.pool) && l.tail == One(Pop, 0, l.body.pool)
  {
    hide LoopCode, BodyCode, Wide, Interned, Find;
  }

  function HeadCode(e: RExpr, p: Pool): Coded
    requires e.CountLoop?
  {
    Then(Instr(PushLocal, e.slotI, p), Then(Instr(PushLocal, e.slotEnd, p), Sym(BinInt(Le), OperatorConst(Le), p)))
  }

  lemma CountIs(e: RExpr, pool: Pool)
    requires e.CountLoop?
    ensures var l := CountParts(e, pool);
      && l.head == HeadCode(e, pool) && l.exit == JumpIfFalse && l.body == BodyCode(e.body, l.head.pool)
      && l.tail == Then(One(Pop, 0, l.body.pool), Increment(e.slotI, l.body.pool))
  {
    hide BodyCode, Wide, Increment, Sym;
  }

  lemma SetupIs(e: RExpr, pool: Pool)
    requires e.CountLoop?
    ensures var a, u := Setup(e, pool), Code(e.start, pool);
      var t := Code(e.stop, u.pool);
      && a == Then(u, Then(One(Dup, 0, u.pool), Then(Instr(Op.StoreLocal, e.slotI, u.pool), Then(t, Instr(Op.StoreLocal, e.slotEnd, t.pool)))))
      && Code(e, pool) == Then(a, LoopCode(CountParts(e, a.pool)))
  {
    hide LoopCode, CountParts, Then, Instr;
  }
}
