/** Running the assembled words does what the resolved code says: a forward simulation, one
    lemma for each shape of code. */
module EngineProof {
  import opened Syntax
  import opened Resolve
  import opened Reference
  import opened Frames
  import opened Bytecode
  import opened Layout
  import opened Codegen
  import opened Engine
  import opened Lowering

  lemma StepAt(s: Site, p: nat, slots: RSlots, stack: seq<MValue>, h: RHeap, op: Op, arg: nat, next: nat)
    requires p < |s.m.words| && Decode(s.m.words, p, 0) == Decoded(op, arg, next)
    ensures Step(Here(s, p, slots, stack, h)) == Execute(op, arg, CodeFrame(s.m, next, TS(slots), stack, s.dict, s.below), THeap(h))
  {
    hide Execute, Decode, TS, THeap;
  }

  /** One instruction that pushes a value and changes nothing else. */
  lemma PushStep(s: Site, p: nat, slots: RSlots, stack: seq<MValue>, h: RHeap, op: Op, arg: nat, next: nat, v: RValue)
    requires p < |s.m.words| && Decode(s.m.words, p, 0) == Decoded(op, arg, next)
    requires GoodSlots(slots) && GoodHeap(h) && Good(v)
    requires var f := CodeFrame(s.m, next, TS(slots), stack, s.dict, s.below);
      Execute(op, arg, f, THeap(h)) == Push(f, TV(v), THeap(h))
    ensures Runs(FVal(v, slots, h), Here(s, p, slots, stack, h), s, next, stack)
  {
    hide Execute, Decode, Reaches, Good, TS, THeap, TV, GoodSlots, GoodHeap;
    StepAt(s, p, slots, stack, h, op, arg, next);
    ReachesStep(Here(s, p, slots, stack, h), Here(s, next, slots, stack + [TV(v)], h));
  }

  predicate IsLeaf(e: RExpr) {
    match e
    case PushInt(_) => true
    case PushBool(_) => true
    case PushNil => true
    case PushSelf => true
    case LoadLocal(_) => true
    case LoadCaptured(_) => true
    case LoadInstVar(_) => true
    case MakeBlock(_) => true
    case _ => false
  }

  lemma SimLeaf(e: RExpr, pool: Pool, s: Site, p: nat, slots: RSlots, stack: seq<MValue>, h: RHeap, fuel: nat)
    requires IsLeaf(e) && Shaped(e) && Placed(Code(e, pool), s.m, p) && GoodSlots(slots) && GoodHeap(h)
    ensures Runs(Exec(e, s.dict, slots, h, fuel), Here(s, p, slots, stack, h), s, p + |Code(e, pool).words|, stack)
  {
    hide Runs, Code, Exec, Placed, GoodSlots, GoodHeap, Here;
    match e
    case PushInt(n) => SimPushInt(n, pool, s, p, slots, stack, h, fuel);
    case LoadLocal(i) => SimLoadLocal(i, pool, s, p, slots, stack, h, fuel);
    case LoadCaptured(x) => SimLoadCaptured(x, pool, s, p, slots, stack, h, fuel);
    case LoadInstVar(x) => SimLoadInstVar(x, pool, s, p, slots, stack, h, fuel);
    case MakeBlock(blk) => SimMakeBlock(blk, pool, s, p, slots, stack, h, fuel);
    case _ => SimPlain(e, pool, s, p, slots, stack, h, fuel);
  }

  lemma SimPlain(e: RExpr, pool: Pool, s: Site, p: nat, slots: RSlots, stack: seq<MValue>, h: RHeap, fuel: nat)
    requires e.PushBool? || e.PushNil? || e.PushSelf?
    requires Placed(Code(e, pool), s.m, p) && GoodSlots(slots) && GoodHeap(h)
    ensures Runs(Exec(e, s.dict, slots, h, fuel), Here(s, p, slots, stack, h), s, p + |Code(e, pool).words|, stack)
  {
    hide Decode, Runs, GoodSlots, GoodHeap, CodeAt, TS, THeap;
    var op := if e.PushNil? then PushNilOp else if e.PushSelf? then PushSelfOp else if e.b then PushTrue else PushFalse;
    var v: RValue := if e.PushNil? then FNil else if e.PushSelf? then FSelf else FBool(e.b);
    DecodeOne(op, 0, pool, s.m, p);
    PushStep(s, p, slots, stack, h, op, 0, p + 1, v);
  }

  lemma SimPushInt(n: int, pool: Pool, s: Site, p: nat, slots: RSlots, stack: seq<MValue>, h: RHeap, fuel: nat)
    requires Placed(Code(PushInt(n), pool), s.m, p) && GoodSlots(slots) && GoodHeap(h)
    ensures Runs(Exec(PushInt(n), s.dict, slots, h, fuel), Here(s, p, slots, stack, h), s,
                 p + |Code(PushInt(n), pool).words|, stack)
  {
    hide Decode, Runs, Wide, Find, GoodSlots, GoodHeap, CodeAt, TS, THeap;
    var q := pool.(consts := pool.consts + [IntConst(n)]);
    DecodeInstr(PushConst, |pool.consts|, q, s.m, p);
    assert q.consts[|pool.consts|] == IntConst(n);
    PushStep(s, p, slots, stack, h, PushConst, |pool.consts|, p + |Wide(PushConst, |pool.consts|)|, FInt(n));
  }

  lemma SimLoadLocal(i: nat, pool: Pool, s: Site, p: nat, slots: RSlots, stack: seq<MValue>, h: RHeap, fuel: nat)
    requires Placed(Code(LoadLocal(i), pool), s.m, p) && GoodSlots(slots) && GoodHeap(h)
    ensures Runs(Exec(LoadLocal(i), s.dict, slots, h, fuel), Here(s, p, slots, stack, h), s,
                 p + |Code(LoadLocal(i), pool).words|, stack)
  {
    hide Decode, Runs, Wide, Find, GoodSlots, GoodHeap, CodeAt, TS, THeap, ReadSlot, ReadCaptured, ReadSelf, Good, TV, Interned;
    DecodeInstr(PushLocal, i, pool, s.m, p);
    TReadSlot(slots, i);
    PushStep(s, p, slots, stack, h, PushLocal, i, p + |Wide(PushLocal, i)|, ReadSlot(slots, i));
  }

  lemma SimLoadCaptured(x: string, pool: Pool, s: Site, p: nat, slots: RSlots, stack: seq<MValue>, h: RHeap, fuel: nat)
    requires Placed(Code(LoadCaptured(x), pool), s.m, p) && GoodSlots(slots) && GoodHeap(h)
    ensures Runs(Exec(LoadCaptured(x), s.dict, slots, h, fuel), Here(s, p, slots, stack, h), s,
                 p + |Code(LoadCaptured(x), pool).words|, stack)
  {
    hide Decode, Runs, Wide, Find, GoodSlots, GoodHeap, CodeAt, TS, THeap, ReadSlot, ReadCaptured, ReadSelf, Good, TV, Interned;
    DecodeSym(PushCaptured, NameConst(x), pool, s.m, p);
    TReadCaptured(h, s.dict, x);
    PushStep(s, p, slots, stack, h, PushCaptured, Find(pool.consts, NameConst(x)),
             p + |Code(LoadCaptured(x), pool).words|, ReadCaptured(h, s.dict, x));
  }

  lemma SimLoadInstVar(x: string, pool: Pool, s: Site, p: nat, slots: RSlots, stack: seq<MValue>, h: RHeap, fuel: nat)
    requires Placed(Code(LoadInstVar(x), pool), s.m, p) && GoodSlots(slots) && GoodHeap(h)
    ensures Runs(Exec(LoadInstVar(x), s.dict, slots, h, fuel), Here(s, p, slots, stack, h), s,
                 p + |Code(LoadInstVar(x), pool).words|, stack)
  {
    hide Decode, Runs, Wide, Find, GoodSlots, GoodHeap, CodeAt, TS, THeap, ReadSlot, ReadCaptured, ReadSelf, Good, TV, Interned;
    DecodeSym(PushInstVar, NameConst(x), pool, s.m, p);
    TReadSelf(h, x);
    PushStep(s, p, slots, stack, h, PushInstVar, Find(pool.consts, NameConst(x)),
             p + |Code(LoadInstVar(x), pool).words|, ReadSelf(h, x));
  }

  lemma SimMakeBlock(blk: RBlock, pool: Pool, s: Site, p: nat, slots: RSlots, stack: seq<MValue>, h: RHeap, fuel: nat)
    requires AllShaped(blk.body) && Placed(Code(MakeBlock(blk), pool), s.m, p) && GoodSlots(slots) && GoodHeap(h)
    ensures Runs(Exec(MakeBlock(blk), s.dict, slots, h, fuel), Here(s, p, slots, stack, h), s,
                 p + |Code(MakeBlock(blk), pool).words|, stack)
  {
    hide Decode, Runs, Wide, BlockCode, CodeAt;
    var m := Assembled(blk, false);
    var q := pool.(blocks := pool.blocks + [m]);
    var c := BlockCode(blk, false);
    PlacedThen(Coded([], pool, c.ok, c.near), Instr(PushBlock, |pool.blocks|, q), s.m, p);
    DecodeInstr(PushBlock, |pool.blocks|, q, s.m, p);
    assert q.blocks[|pool.blocks|] == m;
    PushStep(s, p, slots, stack, h, PushBlock, |pool.blocks|, p + |Code(MakeBlock(blk), pool).words|, Closure(blk, s.dict));
  }

  // ----- Stores -----

  predicate IsStore(e: RExpr) { e.StoreLocal? || e.StoreCaptured? || e.StoreInstVar? }

  /** The store instruction behind DUP, and what its operand refers to. */
  function StoreCode(e: RExpr, p: Pool): Coded
    requires IsStore(e)
  {
    match e
    case StoreLocal(i, _) => Instr(Op.StoreLocal, i, p)
    case StoreCaptured(x, _) => Sym(Op.StoreCaptured, NameConst(x), p)
    case StoreInstVar(x, _) => Sym(Op.StoreInstVar, NameConst(x), p)
  }

  /** What a store makes of the value it was given. */
  function Stored(e: RExpr, d: Link, r: FResult): FResult
    requires IsStore(e)
  {
    if !r.FVal? then r
    else match e
      case StoreLocal(i, _) => FVal(r.v, r.slots[i := r.v], r.heap)
      case StoreCaptured(x, _) =>
        if !HasDict(r.heap, d) then FStop(NoDictionary, r.heap)
        else FVal(r.v, r.slots, WriteCaptured(r.heap, d, x, r.v))
      case StoreInstVar(x, _) => FVal(r.v, r.slots, r.heap.(self := r.heap.self[x := r.v]))
  }

  lemma DupStep(s: Site, p: nat, slots: RSlots, stack: seq<MValue>, h: RHeap, pool: Pool, v: MValue)
    requires Placed(One(Dup, 0, pool), s.m, p)
    ensures Reaches(Here(s, p, slots, stack + [v], h), Here(s, p + 1, slots, stack + [v, v], h))
  {
    hide Decode, Reaches, TS, THeap;
    DecodeOne(Dup, 0, pool, s.m, p);
    StepAt(s, p, slots, stack + [v], h, Dup, 0, p + 1);
    assert stack + [v] + [v] == stack + [v, v];
    ReachesStep(Here(s, p, slots, stack + [v], h), Here(s, p + 1, slots, stack + [v, v], h));
  }

  /** The store instruction itself, on a stack that holds the value twice. */
  lemma StoreStep(e: RExpr, pool: Pool, s: Site, p: nat, v: RValue, slots: RSlots, stack: seq<MValue>, h: RHeap)
    requires IsStore(e) && Placed(StoreCode(e, pool), s.m, p) && Good(v) && GoodSlots(slots) && GoodHeap(h)
    ensures Runs(Stored(e, s.dict, FVal(v, slots, h)), Here(s, p, slots, stack + [TV(v), TV(v)], h), s,
                 p + |StoreCode(e, pool).words|, stack)
  {
    hide Decode, Reaches, Wide, Find, Placed, TS, THeap, TV, GoodHeap, GoodSlots, Good, Execute, WriteCaptured;
    var full, next := stack + [TV(v), TV(v)], p + |StoreCode(e, pool).words|;
    var from := Here(s, p, slots, full, h);
    match e
    case StoreLocal(i, _) =>
      DecodeInstr(Op.StoreLocal, i, pool, s.m, p);
      StepAt(s, p, slots, full, h, Op.StoreLocal, i, next);
      StoreLocalExec(s, next, v, slots, stack, h, i);
      ReachesStep(from, Here(s, next, slots[i := v], stack + [TV(v)], h));
    case StoreCaptured(x, _) =>
      DecodeSym(Op.StoreCaptured, NameConst(x), pool, s.m, p);
      StepAt(s, p, slots, full, h, Op.StoreCaptured, Find(pool.consts, NameConst(x)), next);
      StoreCapturedExec(s, next, v, slots, stack, h, Find(pool.consts, NameConst(x)), x);
      if HasDict(h, s.dict) {
        ReachesStep(from, Here(s, next, slots, stack + [TV(v)], WriteCaptured(h, s.dict, x, v)));
      } else {
        ReachesStep(from, Halted(NoDictionary, THeap(h)));
      }
    case StoreInstVar(x, _) =>
      DecodeSym(Op.StoreInstVar, NameConst(x), pool, s.m, p);
      StepAt(s, p, slots, full, h, Op.StoreInstVar, Find(pool.consts, NameConst(x)), next);
      StoreInstVarExec(s, next, v, slots, stack, h, Find(pool.consts, NameConst(x)), x);
      ReachesStep(from, Here(s, next, slots, stack + [TV(v)], h.(self := h.self[x := v])));
  }

  lemma StoreLocalExec(s: Site, next: nat, v: RValue, slots: RSlots, stack: seq<MValue>, h: RHeap, i: nat)
    requires GoodSlots(slots) && Good(v)
    ensures var f := CodeFrame(s.m, next, TS(slots), stack + [TV(v), TV(v)], s.dict, s.below);
      Execute(Op.StoreLocal, i, f, THeap(h)) == Here(s, next, slots[i := v], stack + [TV(v)], h)
    ensures GoodSlots(slots[i := v])
  {
    hide TV, THeap;
    var full := stack + [TV(v), TV(v)];
    assert full[..|full| - 1] == stack + [TV(v)];
    TStoreSlot(slots, i, v);
  }

  lemma StoreCapturedExec(s: Site, next: nat, v: RValue, slots: RSlots, stack: seq<MValue>, h: RHeap, i: nat, x: string)
    requires i < |s.m.consts| && s.m.consts[i] == NameConst(x) && GoodHeap(h) && Good(v)
    ensures var f := CodeFrame(s.m, next, TS(slots), stack + [TV(v), TV(v)], s.dict, s.below);
      Execute(Op.StoreCaptured, i, f, THeap(h)) ==
      if HasDict(h, s.dict) then Here(s, next, slots, stack + [TV(v)], WriteCaptured(h, s.dict, x, v))
      else Halted(NoDictionary, THeap(h))
    ensures HasDict(h, s.dict) ==> GoodHeap(WriteCaptured(h, s.dict, x, v))
  {
    hide TV, TS, WriteCaptured, GoodHeap;
    var full := stack + [TV(v), TV(v)];
    assert full[..|full| - 1] == stack + [TV(v)];
    if HasDict(h, s.dict) { TWriteCaptured(h, s.dict, x, v); }
  }

  lemma StoreInstVarExec(s: Site, next: nat, v: RValue, slots: RSlots, stack: seq<MValue>, h: RHeap, i: nat, x: string)
    requires i < |s.m.consts| && s.m.consts[i] == NameConst(x) && GoodHeap(h) && Good(v)
    ensures var f := CodeFrame(s.m, next, TS(slots), stack + [TV(v), TV(v)], s.dict, s.below);
      Execute(Op.StoreInstVar, i, f, THeap(h)) == Here(s, next, slots, stack + [TV(v)], h.(self := h.self[x := v]))
    ensures GoodHeap(h.(self := h.self[x := v]))
  {
    hide TV, TS;
    var full := stack + [TV(v), TV(v)];
    assert full[..|full| - 1] == stack + [TV(v)];
    TStoreSelf(h, x, v);
  }

  lemma StoreParts(e: RExpr, pool: Pool, d: Link, slots: RSlots, h: RHeap, fuel: nat)
    requires IsStore(e)
    ensures var v := Code(e.value, pool);
      && Code(e, pool) == Then(v, Then(One(Dup, 0, v.pool), StoreCode(e, v.pool)))
      && |Code(e, pool).words| == |v.words| + 1 + |StoreCode(e, v.pool).words|
    ensures Exec(e, d, slots, h, fuel) == Stored(e, d, Exec(e.value, d, slots, h, fuel))
  {
    hide Sym, Instr, WriteCaptured;
  }

  lemma StorePlaced(e: RExpr, v: Coded, m: Module, p: nat)
    requires IsStore(e) && Placed(Then(v, Then(One(Dup, 0, v.pool), StoreCode(e, v.pool))), m, p)
    ensures Placed(v, m, p) && Placed(One(Dup, 0, v.pool), m, p + |v.words|)
    ensures Placed(StoreCode(e, v.pool), m, p + |v.words| + 1)
  {
    hide Placed;
    PlacedThen(v, Then(One(Dup, 0, v.pool), StoreCode(e, v.pool)), m, p);
    PlacedThen(One(Dup, 0, v.pool), StoreCode(e, v.pool), m, p + |v.words|);
  }

  /** A value, DUP and a store: the value stays on the stack. */
  lemma SimStore(e: RExpr, pool: Pool, s: Site, p: nat, slots: RSlots, stack: seq<MValue>, h: RHeap, r: FResult, v: Coded)
    requires IsStore(e) && !r.FVals? && Placed(Then(v, Then(One(Dup, 0, v.pool), StoreCode(e, v.pool))), s.m, p)
    requires Runs(r, Here(s, p, slots, stack, h), s, p + |v.words|, stack)
    ensures Runs(Stored(e, s.dict, r), Here(s, p, slots, stack, h), s, p + |v.words| + 1 + |StoreCode(e, v.pool).words|, stack)
  {
    hide Reaches, Placed, Stored, StoreCode, TS, TV, THeap, Here, GoodSlots, GoodHeap, Good, Then;
    if r.FVal? {
      var from, p1, last := Here(s, p, slots, stack, h), p + |v.words|, p + |v.words| + 1 + |StoreCode(e, v.pool).words|;
      var one, two := Here(s, p1, r.slots, stack + [TV(r.v)], r.heap), Here(s, p1 + 1, r.slots, stack + [TV(r.v), TV(r.v)], r.heap);
      StorePlaced(e, v, s.m, p);
      DupStep(s, p1, r.slots, stack, r.heap, v.pool, TV(r.v));
      StoreStep(e, v.pool, s, p1 + 1, r.v, r.slots, stack, r.heap);
      RunsFrom(Stored(e, s.dict, r), one, two, s, last, stack);
      RunsFrom(Stored(e, s.dict, r), from, one, s, last, stack);
    } else {
      assert Stored(e, s.dict, r) == r by { NotStored(e, s.dict, r); }
    }
  }

  lemma NotStored(e: RExpr, d: Link, r: FResult)
    requires IsStore(e) && !r.FVal?
    ensures Stored(e, d, r) == r
  {
  }

  // ----- Operators, sends, returns -----

  /** The answer of an operator on two values. */
  function Operated(op: BinOp, a: RValue, b: FResult): FResult {
    if !b.FVal? then b
    else if a.FInt? && b.v.FInt? then FVal(FCompute(op, a.n, b.v.n), b.slots, b.heap)
    else FStop(NotInteger(a, b.v), b.heap)
  }

  lemma OperatorStep(op: BinOp, pool: Pool, s: Site, p: nat, a: RValue, b: FResult, stack: seq<MValue>)
    requires b.FVal? && Placed(Sym(BinInt(op), OperatorConst(op), pool), s.m, p) && GoodSlots(b.slots) && GoodHeap(b.heap)
    ensures Runs(Operated(op, a, b), Here(s, p, b.slots, stack + [TV(a)] + [TV(b.v)], b.heap), s,
                 p + |Sym(BinInt(op), OperatorConst(op), pool).words|, stack)
  {
    hide Decode, Reaches, Wide, Find, Placed, TS, THeap, GoodHeap, GoodSlots;
    var full, next := stack + [TV(a)] + [TV(b.v)], p + |Sym(BinInt(op), OperatorConst(op), pool).words|;
    var from := Here(s, p, b.slots, full, b.heap);
    DecodeSym(BinInt(op), OperatorConst(op), pool, s.m, p);
    StepAt(s, p, b.slots, full, b.heap, BinInt(op), Find(pool.consts, OperatorConst(op)), next);
    assert full[..|full| - 2] == stack;
    if a.FInt? && b.v.FInt? {
      ReachesStep(from, Here(s, next, b.slots, stack + [TV(FCompute(op, a.n, b.v.n))], b.heap));
    } else {
      ReachesStep(from, Halted(TWhy(NotInteger(a, b.v)), THeap(b.heap)));
    }
  }

  lemma ArithIs(e: RExpr, pool: Pool, d: Link, slots: RSlots, h: RHeap, fuel: nat)
    requires e.Arith?
    ensures var x := Exec(e.left, d, slots, h, fuel);
      Exec(e, d, slots, h, fuel) == if !x.FVal? then x else Operated(e.op, x.v, Exec(e.right, d, x.slots, x.heap, fuel))
    ensures var x := Exec(e.left, d, slots, h, fuel);
      x.FVal? && !Exec(e.right, d, x.slots, x.heap, fuel).FVal? ==>
        Exec(e, d, slots, h, fuel) == Exec(e.right, d, x.slots, x.heap, fuel)
    ensures var a := Code(e.left, pool); var b := Code(e.right, a.pool);
      Code(e, pool) == Then(a, Then(b, Sym(BinInt(e.op), OperatorConst(e.op), b.pool)))
  {
  }

  lemma SimArith(e: RExpr, pool: Pool, s: Site, p: nat, slots: RSlots, stack: seq<MValue>, h: RHeap, fuel: nat)
    requires e.Arith? && Shaped(e) && Placed(Code(e, pool), s.m, p) && GoodSlots(slots) && GoodHeap(h)
    ensures Runs(Exec(e, s.dict, slots, h, fuel), Here(s, p, slots, stack, h), s, p + |Code(e, pool).words|, stack)
    decreases fuel, 2, e, 0
  {
    hide Placed, Reaches, TS, TV, THeap, GoodHeap, GoodSlots, Good, Here, Sym, Exec, Code, Operated, StopsAs, GoodAll, TSeq, BlockCode;
    assert Shaped(e.left) && Shaped(e.right);
    hide Shaped;
    ArithIs(e, pool, s.dict, slots, h, fuel);
    var a := Code(e.left, pool);
    var rest := Then(Code(e.right, a.pool), Sym(BinInt(e.op), OperatorConst(e.op), Code(e.right, a.pool).pool));
    PlacedThen(a, rest, s.m, p);
    SimExec(e.left, pool, s, p, slots, stack, h, fuel);
    var x := Exec(e.left, s.dict, slots, h, fuel);
    if x.FVal? {
      var p1 := p + |a.words|;
      var mid := Here(s, p1, x.slots, stack + [TV(x.v)], x.heap);
      SimSecond(e.op, e.right, a.pool, s, p1, x, stack, fuel);
      RunsFrom(Exec(e, s.dict, slots, h, fuel), Here(s, p, slots, stack, h), mid, s, p1 + |rest.words|, stack);
    }
  }

  /** The right operand and the operator, on top of the left operand's value. */
  lemma SimSecond(op: BinOp, e: RExpr, pool: Pool, s: Site, p: nat, x: FResult, stack: seq<MValue>, fuel: nat)
    requires x.FVal? && Shaped(e) && GoodSlots(x.slots) && GoodHeap(x.heap)
    requires Placed(Then(Code(e, pool), Sym(BinInt(op), OperatorConst(op), Code(e, pool).pool)), s.m, p)
    ensures Runs(Operated(op, x.v, Exec(e, s.dict, x.slots, x.heap, fuel)), Here(s, p, x.slots, stack + [TV(x.v)], x.heap),
                 s, p + |Then(Code(e, pool), Sym(BinInt(op), OperatorConst(op), Code(e, pool).pool)).words|, stack)
    decreases fuel, 2, e, 3
  {
    hide Placed, Reaches, TS, TV, THeap, GoodHeap, GoodSlots, Good, Here, Sym, Exec, Code;
    var b := Code(e, pool);
    var c := Sym(BinInt(op), OperatorConst(op), b.pool);
    PlacedThen(b, c, s.m, p);
    var mid := Here(s, p, x.slots, stack + [TV(x.v)], x.heap);
    SimExec(e, pool, s, p, x.slots, stack + [TV(x.v)], x.heap, fuel);
    var y := Exec(e, s.dict, x.slots, x.heap, fuel);
    var p2 := p + |b.words|;
    if y.FVal? {
      OperatorStep(op, b.pool, s, p2, x.v, y, stack);
      RunsFrom(Operated(op, x.v, y), mid, Here(s, p2, y.slots, stack + [TV(x.v)] + [TV(y.v)], y.heap), s, p2 + |c.words|, stack);
    }
  }

  lemma SimReturn(e: RExpr, pool: Pool, s: Site, p: nat, slots: RSlots, stack: seq<MValue>, h: RHeap, fuel: nat)
    requires e.ReturnFromHome? && Shaped(e) && Placed(Code(e, pool), s.m, p) && GoodSlots(slots) && GoodHeap(h)
    ensures Runs(Exec(e, s.dict, slots, h, fuel), Here(s, p, slots, stack, h), s, p + |Code(e, pool).words|, stack)
    decreases fuel, 2, e, 0
  {
    hide Placed, Reaches, TS, TV, THeap, GoodHeap, GoodSlots, Good, Decode, Code, Exec;
    ReturnParts(e, pool, s.dict, slots, h, fuel);
    var v := Code(e.value, pool);
    var p1 := p + |v.words|;
    PlacedThen(v, One(Op.Return, 0, v.pool), s.m, p);
    SimExec(e.value, pool, s, p, slots, stack, h, fuel);
    var x := Exec(e.value, s.dict, slots, h, fuel);
    if x.FVal? {
      var mid := Here(s, p1, x.slots, stack + [TV(x.v)], x.heap);
      DecodeOne(Op.Return, 0, v.pool, s.m, p1);
      StepAt(s, p1, x.slots, stack + [TV(x.v)], x.heap, Op.Return, 0, p1 + 1);
      ReachesStep(mid, Halted(Returned(TV(x.v)), THeap(x.heap)));
      RunsFrom(Exec(e, s.dict, slots, h, fuel), Here(s, p, slots, stack, h), mid, s, p1 + 1, stack);
    }
  }

  lemma ReturnParts(e: RExpr, pool: Pool, d: Link, slots: RSlots, h: RHeap, fuel: nat)
    requires e.ReturnFromHome?
    ensures Code(e, pool) == Then(Code(e.value, pool), One(Op.Return, 0, Code(e.value, pool).pool))
    ensures var r := Exec(e.value, d, slots, h, fuel);
      Exec(e, d, slots, h, fuel) == if r.FVal? then FStop(Returned(r.v), r.heap) else r
  {
  }

  lemma SimArgs(es: RExprs, pool: Pool, s: Site, p: nat, slots: RSlots, stack: seq<MValue>, h: RHeap, fuel: nat)
    requires AllShaped(es) && Placed(ArgsCode(es, pool), s.m, p) && GoodSlots(slots) && GoodHeap(h)
    ensures Runs(ExecArgs(es, s.dict, slots, h, fuel), Here(s, p, slots, stack, h), s, p + |ArgsCode(es, pool).words|, stack)
    ensures ExecArgs(es, s.dict, slots, h, fuel).FVals? ==> |ExecArgs(es, s.dict, slots, h, fuel).vs| == Length(es)
    decreases fuel, 2, es, 0
  {
    hide Placed, Reaches, TS, TV, THeap, GoodHeap, GoodSlots, Good, Here, Code, Exec, Then;
    assert es.RCons? ==> ArgsCode(es, pool) == Then(Code(es.head, pool), ArgsCode(es.tail, Code(es.head, pool).pool));
    var from, r := Here(s, p, slots, stack, h), ExecArgs(es, s.dict, slots, h, fuel);
    match es
    case RNil =>
      assert stack + TSeq([]) == stack;
      ReachesSelf(from);
    case RCons(e, t) =>
      var a := Code(e, pool);
      var p1, p2 := p + |a.words|, p + |ArgsCode(es, pool).words|;
      ThenLength(a, ArgsCode(t, a.pool));
      PlacedThen(a, ArgsCode(t, a.pool), s.m, p);
      SimExec(e, pool, s, p, slots, stack, h, fuel);
      var x := Exec(e, s.dict, slots, h, fuel);
      if x.FVal? {
        var mid := Here(s, p1, x.slots, stack + [TV(x.v)], x.heap);
        SimArgs(t, a.pool, s, p1, x.slots, stack + [TV(x.v)], x.heap, fuel);
        var y := ExecArgs(t, s.dict, x.slots, x.heap, fuel);
        RunsFrom(y, from, mid, s, p2, stack + [TV(x.v)]);
        if y.FVals? { assert stack + [TV(x.v)] + TSeq(y.vs) == stack + TSeq([x.v] + y.vs); }
      }
  }

  /** The send instruction takes the receiver and the arguments off the stack. */
  lemma SendGoes(sel: Selector, pool: Pool, s: Site, p: nat, recv: RValue, args: seq<RValue>, slots: RSlots,
                 stack: seq<MValue>, h: RHeap)
    requires Placed(Sym(SendOp(sel), SelectorConst(sel), pool), s.m, p) && |args| == Arity(sel)
    ensures var next := p + |Sym(SendOp(sel), SelectorConst(sel), pool).words|;
      var below := CodeFrame(s.m, next, TS(slots), stack, s.dict, s.below);
      Step(Here(s, p, slots, stack + [TV(recv)] + TSeq(args), h)) == Dispatch(sel, TV(recv), TSeq(args), below, THeap(h))
  {
    hide Decode, Wide, Find, Placed, TS, TV, THeap, Dispatch;
    var full, next := stack + [TV(recv)] + TSeq(args), p + |Sym(SendOp(sel), SelectorConst(sel), pool).words|;
    DecodeSym(SendOp(sel), SelectorConst(sel), pool, s.m, p);
    StepAt(s, p, slots, full, h, SendOp(sel), Find(pool.consts, SelectorConst(sel)), next);
    var n := |args|;
    assert full[|full| - n..] == TSeq(args) && full[|full| - n - 1] == TV(recv) && full[..|full| - n - 1] == stack;
  }

  /** The answer of a send is left where the receiver was. */
  lemma SendStep(sel: Selector, pool: Pool, s: Site, p: nat, recv: RValue, args: seq<RValue>, slots: RSlots,
                 stack: seq<MValue>, h: RHeap, r: FResult)
    requires Placed(Sym(SendOp(sel), SelectorConst(sel), pool), s.m, p) && |args| == Arity(sel)
    requires var next := p + |Sym(SendOp(sel), SelectorConst(sel), pool).words|;
      var below := CodeFrame(s.m, next, TS(slots), stack, s.dict, s.below);
      Answers(r, Dispatch(sel, TV(recv), TSeq(args), below, THeap(h)), below)
    requires GoodSlots(slots)
    ensures Runs(if r.FVal? then FVal(r.v, slots, r.heap) else r,
                 Here(s, p, slots, stack + [TV(recv)] + TSeq(args), h), s,
                 p + |Sym(SendOp(sel), SelectorConst(sel), pool).words|, stack)
  {
    hide Reaches, Sym, Placed, TS, TV, THeap, GoodHeap, GoodSlots, Good, Dispatch;
    var full, next := stack + [TV(recv)] + TSeq(args), p + |Sym(SendOp(sel), SelectorConst(sel), pool).words|;
    var below := CodeFrame(s.m, next, TS(slots), stack, s.dict, s.below);
    var from, called := Here(s, p, slots, full, h), Dispatch(sel, TV(recv), TSeq(args), below, THeap(h));
    SendGoes(sel, pool, s, p, recv, args, slots, stack, h);
    ReachesStep(from, called);
    AnswersFrom(r, from, called, below);
  }

  lemma SimSend(e: RExpr, pool: Pool, s: Site, p: nat, slots: RSlots, stack: seq<MValue>, h: RHeap, fuel: nat)
    requires e.SendMsg? && Shaped(e) && Placed(Code(e, pool), s.m, p) && GoodSlots(slots) && GoodHeap(h)
    ensures Runs(Exec(e, s.dict, slots, h, fuel), Here(s, p, slots, stack, h), s, p + |Code(e, pool).words|, stack)
    decreases fuel, 2, e, 0
  {
    hide Placed, Reaches, TS, TV, THeap, GoodHeap, GoodSlots, Good, Here, Sym, Answers, Dispatch, FApply;
    var a := Code(e.recv, pool);
    var b := ArgsCode(e.args, a.pool);
    var c := Sym(SendOp(e.sel), SelectorConst(e.sel), b.pool);
    var p1, p2, p3 := p + |a.words|, p + |a.words| + |b.words|, p + |a.words| + |b.words| + |c.words|;
    PlacedThen(a, Then(b, c), s.m, p);
    PlacedThen(b, c, s.m, p1);
    var from, r := Here(s, p, slots, stack, h), Exec(e, s.dict, slots, h, fuel);
    SimExec(e.recv, pool, s, p, slots, stack, h, fuel);
    var x := Exec(e.recv, s.dict, slots, h, fuel);
    if x.FVal? {
      var mid := Here(s, p1, x.slots, stack + [TV(x.v)], x.heap);
      SimArgs(e.args, a.pool, s, p1, x.slots, stack + [TV(x.v)], x.heap, fuel);
      var y := ExecArgs(e.args, s.dict, x.slots, x.heap, fuel);
      if y.FVals? {
        var below := CodeFrame(s.m, p3, TS(y.slots), stack, s.dict, s.below);
        SimApply(e.sel, x.v, y.vs, below, y.heap, fuel);
        SendStep(e.sel, b.pool, s, p2, x.v, y.vs, y.slots, stack, y.heap, FApply(e.sel, x.v, y.vs, y.heap, fuel));
        RunsFrom(r, mid, Here(s, p2, y.slots, stack + [TV(x.v)] + TSeq(y.vs), y.heap), s, p3, stack);
      }
      RunsFrom(r, from, mid, s, p3, stack);
    }
  }

  // ----- Calls -----

  /** The value a binding starts with is pushed. */
  lemma PushSource(d: Define, pool: Pool, s: Site, p: nat, slots: RSlots, stack: seq<MValue>, h: RHeap)
    requires Placed(SourceCode(d, pool), s.m, p) && GoodSlots(slots) && GoodHeap(h)
    ensures Runs(FVal(SourceValue(slots, d.fromSlot), slots, h), Here(s, p, slots, stack, h), s, p + |SourceCode(d, pool).words|, stack)
  {
    hide Decode, Reaches, Wide, Placed, TS, TV, THeap, GoodHeap, GoodSlots, Good, ReadSlot, Runs, Here;
    var v, next := SourceValue(slots, d.fromSlot), p + |SourceCode(d, pool).words|;
    match d.fromSlot
    case FromSlot(i) =>
      DecodeInstr(PushLocal, i, pool, s.m, p);
      TReadSlot(slots, i);
      PushStep(s, p, slots, stack, h, PushLocal, i, next, v);
    case FromNil =>
      DecodeOne(PushNilOp, 0, pool, s.m, p);
      NilIsGood();
      PushStep(s, p, slots, stack, h, PushNilOp, 0, next, v);
  }

  lemma SimDefine(d: Define, pool: Pool, s: Site, p: nat, slots: RSlots, stack: seq<MValue>, h: RHeap)
    requires Placed(DefineCode(d, pool), s.m, p) && HasDict(h, s.dict) && GoodSlots(slots) && GoodHeap(h)
    ensures var h' := BindIn(h, s.dict.id, d.name, SourceValue(slots, d.fromSlot));
      GoodHeap(h') && Reaches(Here(s, p, slots, stack, h), Here(s, p + |DefineCode(d, pool).words|, slots, stack, h'))
  {
    hide Decode, Reaches, Wide, Find, Placed, TS, TV, THeap, GoodHeap, GoodSlots, Good, Sym, ReadSlot, SourceCode, SourceValue;
    var sym := Sym(DefineCaptured, NameConst(d.name), pool);
    var push := SourceCode(d, sym.pool);
    PlacedThen(push, sym, s.m, p);
    var p1, v := p + |push.words|, SourceValue(slots, d.fromSlot);
    PushSource(d, sym.pool, s, p, slots, stack, h);
    var full, p2 := stack + [TV(v)], p1 + |sym.words|;
    DecodeSym(DefineCaptured, NameConst(d.name), pool, s.m, p1);
    StepAt(s, p1, slots, full, h, DefineCaptured, Find(pool.consts, NameConst(d.name)), p2);
    DefineExec(s, p2, slots, stack, h, Find(pool.consts, NameConst(d.name)), d.name, v);
    var h' := BindIn(h, s.dict.id, d.name, v);
    ReachesStep(Here(s, p1, slots, full, h), Here(s, p2, slots, stack, h'));
    ReachesTrans(Here(s, p, slots, stack, h), Here(s, p1, slots, full, h), Here(s, p2, slots, stack, h'));
  }

  lemma NilIsGood()
    ensures Good(FNil) && TV(FNil) == FNil
  {
  }

  lemma DefineExec(s: Site, next: nat, slots: RSlots, stack: seq<MValue>, h: RHeap, i: nat, x: string, v: RValue)
    requires i < |s.m.consts| && s.m.consts[i] == NameConst(x) && HasDict(h, s.dict) && GoodHeap(h) && Good(v)
    ensures var f := CodeFrame(s.m, next, TS(slots), stack + [TV(v)], s.dict, s.below);
      Execute(DefineCaptured, i, f, THeap(h)) == Here(s, next, slots, stack, BindIn(h, s.dict.id, x, v))
    ensures GoodHeap(BindIn(h, s.dict.id, x, v))
  {
    hide TV, TS, BindIn, GoodHeap, Good;
    assert (stack + [TV(v)])[..|stack|] == stack;
    TBindIn(h, s.dict.id, x, v);
  }

  lemma {:induction false} SimDefines(ds: seq<Define>, i: nat, pool: Pool, s: Site, p: nat, slots: RSlots,
                                      binds: map<string, RValue>, h: RHeap, parent: Link)
    requires i <= |ds| && Placed(DefinesCode(ds[i..], pool), s.m, p) && GoodSlots(slots)
    requires s.dict == Link.At(|h.dicts|) && GoodHeap(h.(dicts := h.dicts + [Dict(parent, binds)]))
    ensures var h0, h1 := h.(dicts := h.dicts + [Dict(parent, binds)]),
                          h.(dicts := h.dicts + [Dict(parent, DefineAll(binds, ds, slots, i))]);
      GoodHeap(h1) && Reaches(Here(s, p, slots, [], h0), Here(s, p + |DefinesCode(ds[i..], pool).words|, slots, [], h1))
    decreases |ds| - i
  {
    hide Reaches, Placed, TS, THeap, GoodHeap, GoodSlots, DefineCode;
    var h0 := h.(dicts := h.dicts + [Dict(parent, binds)]);
    if i == |ds| {
      ReachesSelf(Here(s, p, slots, [], h0));
    } else {
      var d, a := ds[i], DefineCode(ds[i], pool);
      assert ds[i..][0] == d && ds[i..][1..] == ds[i + 1..];
      PlacedThen(a, DefinesCode(ds[i + 1..], a.pool), s.m, p);
      SimDefine(d, pool, s, p, slots, [], h0);
      var v := SourceValue(slots, d.fromSlot);
      var h1 := h.(dicts := h.dicts + [Dict(parent, binds[d.name := v])]);
      assert BindIn(h0, s.dict.id, d.name, v) == h1;
      SimDefines(ds, i + 1, a.pool, s, p + |a.words|, slots, binds[d.name := v], h, parent);
      ReachesTrans(Here(s, p, slots, [], h0), Here(s, p + |a.words|, slots, [], h1),
                   Here(s, p + |DefinesCode(ds[i..], pool).words|, slots, [],
                      h.(dicts := h.dicts + [Dict(parent, DefineAll(binds, ds, slots, i))])));
    }
  }

  /** The prologue opens the dictionary of the activation: a block's below the inherited one,
      a method's below none. */
  lemma SimPrologue(ds: seq<Define>, isMethod: bool, s: Site, slots: RSlots, h: RHeap)
    requires Placed(Prologue(ds, isMethod, Pool([], [])), s.m, 0) && GoodSlots(slots) && GoodHeap(h)
    requires isMethod ==> s.dict == NoDict
    ensures var (d, h') := OpenDict(h, s.dict, ds, slots);
      GoodHeap(h') && Reaches(Here(s, 0, slots, [], h), Here(s.(dict := d), |Prologue(ds, isMethod, Pool([], [])).words|, slots, [], h'))
  {
    hide Reaches, Placed, TS, THeap, GoodHeap, GoodSlots, Decode, DefineAll;
    var pool := Pool([], []);
    if ds == [] {
      ReachesSelf(Here(s, 0, slots, [], h));
    } else {
      var make := One(MakeCaptured, if isMethod then 0 else 1, pool);
      PlacedThen(make, DefinesCode(ds, pool), s.m, 0);
      DecodeOne(MakeCaptured, if isMethod then 0 else 1, pool, s.m, 0);
      StepAt(s, 0, slots, [], h, MakeCaptured, if isMethod then 0 else 1, 1);
      var h0 := h.(dicts := h.dicts + [Dict(s.dict, map[])]);
      TNewDict(h, s.dict);
      var s' := s.(dict := Link.At(|h.dicts|));
      assert |THeap(h).dicts| == |h.dicts| by { TShapes(h); }
      ReachesStep(Here(s, 0, slots, [], h), Here(s', 1, slots, [], h0));
      assert ds[0..] == ds;
      SimDefines(ds, 0, pool, s', 1, slots, map[], h, s.dict);
      var (d, h') := OpenDict(h, s.dict, ds, slots);
      ReachesTrans(Here(s, 0, slots, [], h), Here(s', 1, slots, [], h0),
                   Here(s', 1 + |DefinesCode(ds, pool).words|, slots, [], h'));
    }
  }

  /** Invoking a closure runs its prologue and its body, and delivers its last value. */
  lemma SimCall(f: RValue, args: seq<RValue>, below: Stack, h: RHeap, fuel: nat)
    requires Good(f) && GoodAll(args) && GoodHeap(h)
    ensures Answers(FCall(f, args, h, fuel), Invoke(TV(f), TSeq(args), below, THeap(h)), below)
    decreases fuel, 0
  {
    hide Reaches, Placed, TS, THeap, GoodHeap, GoodSlots, Decode, GoodAll, BlockCode, OpenDict;
    var from := Invoke(TV(f), TSeq(args), below, THeap(h));
    if !f.Closure? || |args| != f.code.argCount {
      ReachesSelf(from);
    } else if fuel > 0 {
      var slots := ArgSlots(args);
      TArgSlots(args);
      var s := Site(Assembled(f.code, false), f.dict, below);
      assert from == Here(s, 0, slots, [], h);
      var (dict, h') := OpenDict(h, f.dict, f.code.defines, slots);
      var s' := s.(dict := dict);
      BlockPlaced(f.code, s.m);
      var d := Prologue(f.code.defines, false, Pool([], []));
      var b := BodyCode(f.code.body, d.pool);
      SimPrologue(f.code.defines, false, s, slots, h);
      var mid := Here(s', |d.words|, slots, [], h');
      SimBody(f.code.body, d.pool, s', |d.words|, slots, [], h', fuel - 1);
      var r := ExecBody(f.code.body, dict, slots, h', fuel - 1);
      BlockEnds(r, b.pool, s', |d.words| + |b.words|, mid);
      AnswersFrom(r, from, mid, below);
    }
  }

  lemma BlockPlaced(blk: RBlock, m: Module)
    requires Compiles(blk, false) && m == Assembled(blk, false)
    ensures var d := Prologue(blk.defines, false, Pool([], []));
      var b := BodyCode(blk.body, d.pool);
      Placed(d, m, 0) && Placed(b, m, |d.words|) && Placed(One(ReturnTop, 0, b.pool), m, |d.words| + |b.words|)
  {
    hide CodeAt, BodyCode, Prologue;
    var d := Prologue(blk.defines, false, Pool([], []));
    var b := BodyCode(blk.body, d.pool);
    var c := BlockCode(blk, false);
    WholeCode(c.words);
    PlacedThen(d, Then(b, One(ReturnTop, 0, b.pool)), m, 0);
    PlacedThen(b, One(ReturnTop, 0, b.pool), m, |d.words|);
  }

  lemma WholeCode(w: seq<Word>)
    ensures CodeAt(w, 0, w)
  {
  }

  lemma BlockEnds(r: FResult, pool: Pool, s: Site, p: nat, from: Machine)
    requires !r.FVals? && Runs(r, from, s, p, []) && Placed(One(ReturnTop, 0, pool), s.m, p)
    ensures Answers(r, from, s.below)
  {
    hide Reaches, Placed, TS, TV, THeap, GoodHeap, GoodSlots, Decode, Good;
    if r.FVal? {
      var end := Here(s, p, r.slots, [] + [TV(r.v)], r.heap);
      DecodeOne(ReturnTop, 0, pool, s.m, p);
      StepAt(s, p, r.slots, [] + [TV(r.v)], r.heap, ReturnTop, 0, p + 1);
      ReachesStep(end, Deliver(TV(r.v), s.below, THeap(r.heap)));
      ReachesTrans(from, end, Deliver(TV(r.v), s.below, THeap(r.heap)));
    }
  }

  lemma AnswersNow(v: RValue, slots: RSlots, h: RHeap, below: Stack)
    requires Good(v) && GoodHeap(h)
    ensures Answers(FVal(v, slots, h), Deliver(TV(v), below, THeap(h)), below)
  {
    ReachesSelf(Deliver(TV(v), below, THeap(h)));
  }

  lemma StopsNow(why: Why<RValue>, h: RHeap, below: Stack)
    ensures Answers(FStop(why, h), Halted(TWhy(why), THeap(h)), below)
  {
    ReachesSelf(Halted(TWhy(why), THeap(h)));
  }

  lemma SimApply(sel: Selector, recv: RValue, args: seq<RValue>, below: Stack, h: RHeap, fuel: nat)
    requires Good(recv) && GoodAll(args) && GoodHeap(h)
    ensures Answers(FApply(sel, recv, args, h, fuel), Dispatch(sel, TV(recv), TSeq(args), below, THeap(h)), below)
    decreases fuel, 1
  {
    hide Answers, THeap, GoodHeap, Good, FCall, FWhile, FCount, Deliver, Invoke, CountFrom;
    var r, m := FApply(sel, recv, args, h, fuel), Dispatch(sel, TV(recv), TSeq(args), below, THeap(h));
    assert TSeq([]) == [];
    NilIsGood();
    if r == FStop(Dnu(sel, recv), h) && m == Halted(Dnu(sel, TV(recv)), THeap(h)) {
      StopsNow(Dnu(sel, recv), h, below);
    } else {
      match sel
      case Value(k) => SimCall(recv, args, below, h, fuel);
      case IfTrue => if recv.b { SimCall(args[0], [], below, h, fuel); } else { AnswersNow(FNil, map[], h, below); }
      case IfFalse => if recv.b { AnswersNow(FNil, map[], h, below); } else { SimCall(args[0], [], below, h, fuel); }
      case IfTrueIfFalse => SimCall(if recv.b then args[0] else args[1], [], below, h, fuel);
      case IfFalseIfTrue => SimCall(if recv.b then args[1] else args[0], [], below, h, fuel);
      case WhileTrue => SimWhile(sel, recv, args[0], below, h, fuel);
      case WhileFalse => SimWhile(sel, recv, args[0], below, h, fuel);
      case ToDo =>
        if !recv.FInt? || !args[0].FInt? { StopsNow(NotInteger(recv, args[0]), h, below); }
        else { SimCount(recv.n, recv.n, args[0].n, args[1], below, h, fuel); }
    }
  }

  lemma SimWhile(sel: Selector, cond: RValue, body: RValue, below: Stack, h: RHeap, fuel: nat)
    requires Good(cond) && Good(body) && GoodHeap(h)
    ensures Answers(FWhile(sel, cond, body, h, fuel),
                    Invoke(TV(cond), [], WhileFrame(sel, TV(cond), TV(body), false, below), THeap(h)), below)
    decreases fuel, 0
  {
    hide THeap, GoodHeap, Good, FCall, Reaches, Invoke;
    if fuel > 0 {
      var f := WhileFrame(sel, TV(cond), TV(body), false, below);
      var g := f.(inBody := true);
      var r, from := FWhile(sel, cond, body, h, fuel), Invoke(TV(cond), [], f, THeap(h));
      assert TSeq([]) == [];
      NilIsGood();
      SimCall(cond, [], f, h, fuel - 1);
      var c := FCall(cond, [], h, fuel - 1);
      if c.FVal? {
        var mid := Deliver(TV(c.v), f, THeap(c.heap));
        if (c.v == FBool(true)) != (sel == WhileTrue) {
          AnswersNow(FNil, map[], c.heap, below);
        } else {
          SimCall(body, [], g, c.heap, fuel - 1);
          var b := FCall(body, [], c.heap, fuel - 1);
          if b.FVal? {
            SimWhile(sel, cond, body, below, b.heap, fuel - 1);
            AnswersFrom(r, mid, Deliver(TV(b.v), g, THeap(b.heap)), below);
          }
        }
        AnswersFrom(r, from, mid, below);
      }
    }
  }

  lemma SimCount(start: int, i: int, stop: int, body: RValue, below: Stack, h: RHeap, fuel: nat)
    requires Good(body) && GoodHeap(h)
    ensures Answers(FCount(start, i, stop, body, h, fuel), CountFrom(start, i, stop, TV(body), below, THeap(h)), below)
    decreases fuel, 0
  {
    hide THeap, GoodHeap, FCall, Reaches, Invoke;
    if i > stop {
      AnswersNow(FInt(start), map[], h, below);
    } else if fuel > 0 {
      var f := CountFrame(start, i, stop, TV(body), below);
      var r, from := FCount(start, i, stop, body, h, fuel), CountFrom(start, i, stop, TV(body), below, THeap(h));
      assert TSeq([FInt(i)]) == [FInt(i)];
      SimCall(body, [FInt(i)], f, h, fuel - 1);
      var b := FCall(body, [FInt(i)], h, fuel - 1);
      if b.FVal? {
        SimCount(start, i + 1, stop, body, below, b.heap, fuel - 1);
        AnswersFrom(r, from, Deliver(TV(b.v), f, THeap(b.heap)), below);
      }
    }
  }

  // ----- Bodies -----

  lemma SimBody(es: RExprs, pool: Pool, s: Site, p: nat, slots: RSlots, stack: seq<MValue>, h: RHeap, fuel: nat)
    requires AllShaped(es) && Placed(BodyCode(es, pool), s.m, p) && GoodSlots(slots) && GoodHeap(h)
    ensures Runs(ExecBody(es, s.dict, slots, h, fuel), Here(s, p, slots, stack, h), s, p + |BodyCode(es, pool).words|, stack)
    decreases fuel, 2, es, 0
  {
    hide Placed, Reaches, TS, TV, THeap, GoodHeap, GoodSlots, Good, Decode, Code, Exec;
    match es
    case RNil =>
      DecodeOne(PushNilOp, 0, pool, s.m, p);
      NilIsGood();
      PushStep(s, p, slots, stack, h, PushNilOp, 0, p + 1, FNil);
    case RCons(e, RNil) => SimExec(e, pool, s, p, slots, stack, h, fuel);
    case RCons(e, t) =>
      var a := Code(e, pool);
      var p1 := p + |a.words|;
      PlacedThen(a, Then(One(Pop, 0, a.pool), BodyCode(t, a.pool)), s.m, p);
      PlacedThen(One(Pop, 0, a.pool), BodyCode(t, a.pool), s.m, p1);
      SimExec(e, pool, s, p, slots, stack, h, fuel);
      var x := Exec(e, s.dict, slots, h, fuel);
      if x.FVal? {
        var p2 := p + |BodyCode(es, pool).words|;
        PopStep(s, p1, x.slots, stack, x.heap, a.pool, TV(x.v));
        SimBody(t, a.pool, s, p1 + 1, x.slots, stack, x.heap, fuel);
        var y := ExecBody(t, s.dict, x.slots, x.heap, fuel);
        var mid := Here(s, p1, x.slots, stack + [TV(x.v)], x.heap);
        RunsFrom(y, mid, Here(s, p1 + 1, x.slots, stack, x.heap), s, p2, stack);
        RunsFrom(y, Here(s, p, slots, stack, h), mid, s, p2, stack);
      }
  }

  lemma PopStep(s: Site, p: nat, slots: RSlots, stack: seq<MValue>, h: RHeap, pool: Pool, v: MValue)
    requires Placed(One(Pop, 0, pool), s.m, p)
    ensures Reaches(Here(s, p, slots, stack + [v], h), Here(s, p + 1, slots, stack, h))
  {
    hide Decode, Reaches, TS, THeap;
    DecodeOne(Pop, 0, pool, s.m, p);
    StepAt(s, p, slots, stack + [v], h, Pop, 0, p + 1);
    assert (stack + [v])[..|stack|] == stack;
    ReachesStep(Here(s, p, slots, stack + [v], h), Here(s, p + 1, slots, stack, h));
  }

  lemma SimInline(es: RExprs, pool: Pool, s: Site, p: nat, slots: RSlots, stack: seq<MValue>, h: RHeap, fuel: nat)
    requires AllShaped(es) && Placed(BodyCode(es, pool), s.m, p) && GoodSlots(slots) && GoodHeap(h)
    ensures Runs(ExecInline(es, s.dict, slots, h, fuel), Here(s, p, slots, stack, h), s, p + |BodyCode(es, pool).words|, stack)
    decreases fuel, 1, 0
  {
    hide Placed, Here, BodyCode, GoodSlots, GoodHeap, Reaches, ExecBody;
    if fuel > 0 { SimBody(es, pool, s, p, slots, stack, h, fuel - 1); }
  }

  lemma SimExec(e: RExpr, pool: Pool, s: Site, p: nat, slots: RSlots, stack: seq<MValue>, h: RHeap, fuel: nat)
    requires Shaped(e) && Placed(Code(e, pool), s.m, p) && GoodSlots(slots) && GoodHeap(h)
    ensures Runs(Exec(e, s.dict, slots, h, fuel), Here(s, p, slots, stack, h), s, p + |Code(e, pool).words|, stack)
    decreases fuel, 2, e, 2
  {
    hide Placed, Runs, Here, GoodHeap, GoodSlots, Code, Exec, Stored, StoreCode, Then;
    if IsLeaf(e) {
      SimLeaf(e, pool, s, p, slots, stack, h, fuel);
    } else if IsStore(e) {
      StoreParts(e, pool, s.dict, slots, h, fuel);
      StorePlaced(e, Code(e.value, pool), s.m, p);
      SimExec(e.value, pool, s, p, slots, stack, h, fuel);
      SimStore(e, pool, s, p, slots, stack, h, Exec(e.value, s.dict, slots, h, fuel), Code(e.value, pool));
    } else {
      match e
      case Arith(_, _, _) => SimArith(e, pool, s, p, slots, stack, h, fuel);
      case SendMsg(_, _, _) => SimSend(e, pool, s, p, slots, stack, h, fuel);
      case ReturnFromHome(_) => SimReturn(e, pool, s, p, slots, stack, h, fuel);
      case Cond(_, _, _, _) => SimCond(e, pool, s, p, slots, stack, h, fuel);
      case CondElse(_, _, _, _) => SimCond(e, pool, s, p, slots, stack, h, fuel);
      case Loop(_, _, _, _) => SimLoop(e, pool, s, p, slots, stack, h, fuel);
      case CountLoop(_, _, _, _, _) => SimCountLoop(e, pool, s, p, slots, stack, h, fuel);
    }
  }

  // ----- Inlined conditionals -----

  /** The guard and the jump: a value that is no Boolean stops the run, any other decides. */
  lemma TestStep(sel: Selector, i: nat, onTrue: bool, offset: nat, s: Site, p1: nat, p2: nat, p3: nat,
                 v: RValue, slots: RSlots, stack: seq<MValue>, h: RHeap)
    requires p1 < |s.m.words| && Decode(s.m.words, p1, 0) == Decoded(AssertBoolOrDnu, i, p2)
    requires i < |s.m.consts| && s.m.consts[i] == SelectorConst(sel)
    requires p2 < |s.m.words| && Decode(s.m.words, p2, 0) == Decoded(JumpUnless(onTrue), offset, p3)
    ensures var from := Here(s, p1, slots, stack + [TV(v)], h);
      if v.FBool? then Reaches(from, Here(s, if v.b == onTrue then p3 else p3 + offset, slots, stack, h))
      else Reaches(from, Halted(Dnu(sel, TV(v)), THeap(h)))
  {
    hide Decode, Reaches, TS, THeap;
    var full := stack + [TV(v)];
    var from, mid := Here(s, p1, slots, full, h), Here(s, p2, slots, full, h);
    StepAt(s, p1, slots, full, h, AssertBoolOrDnu, i, p2);
    if v.FBool? {
      ReachesStep(from, mid);
      StepAt(s, p2, slots, full, h, JumpUnless(onTrue), offset, p3);
      assert full[..|full| - 1] == stack;
      var to := Here(s, if v.b == onTrue then p3 else p3 + offset, slots, stack, h);
      ReachesStep(mid, to);
      ReachesTrans(from, mid, to);
    } else {
      ReachesStep(from, Halted(Dnu(sel, TV(v)), THeap(h)));
    }
  }

  /** Where the stretches of a conditional at `p` begin. */
  function GuardAt(b: Branches, p: nat): nat { p + |b.test.words| }
  function JumpAt(b: Branches, p: nat): nat { GuardAt(b, p) + |b.guard.words| }
  function FirstAt(b: Branches, p: nat): nat { JumpAt(b, p) + |b.jump.words| }
  function SkipAt(b: Branches, p: nat): nat { FirstAt(b, p) + |b.first.words| }
  function SecondAt(b: Branches, p: nat): nat { SkipAt(b, p) + |b.skip.words| }
  function EndAt(b: Branches, p: nat): nat { SecondAt(b, p) + |b.second.words| }

  lemma BranchesPlaced(b: Branches, m: Module, p: nat)
    requires Chained(b) && Placed(Joined(b), m, p)
    ensures Placed(b.test, m, p) && Placed(b.guard, m, GuardAt(b, p)) && Placed(b.jump, m, JumpAt(b, p))
    ensures Placed(b.first, m, FirstAt(b, p)) && Placed(b.skip, m, SkipAt(b, p)) && Placed(b.second, m, SecondAt(b, p))
    ensures p + |Joined(b).words| == EndAt(b, p)
  {
    hide Placed;
    var c4 := Then(b.skip, b.second);
    var c3 := Then(b.first, c4);
    var c2 := Then(b.jump, c3);
    PlacedThen(b.test, Then(b.guard, c2), m, p);
    PlacedThen(b.guard, c2, m, GuardAt(b, p));
    PlacedThen(b.jump, c3, m, JumpAt(b, p));
    PlacedThen(b.first, c4, m, FirstAt(b, p));
    PlacedThen(b.skip, b.second, m, SkipAt(b, p));
  }

  /** The branch a Boolean leads to; ifTrue: and ifFalse: have none for the other one. */
  function Branch(e: RExpr, v: bool): RExprs
    requires e.CondElse? || (e.Cond? && v == e.onTrue)
  {
    if e.Cond? then e.body else if v then e.thn else e.els
  }

  /** Does this Boolean lead to the first branch? */
  predicate TakesFirst(e: RExpr, v: bool)
    requires e.Cond? || e.CondElse?
  {
    v == if e.Cond? then e.onTrue else true
  }

  lemma BranchPlaced(e: RExpr, pool: Pool, m: Module, p: nat, v: bool)
    requires (e.Cond? || e.CondElse?) && Placed(Code(e, pool), m, p) && (e.Cond? ==> v == e.onTrue)
    ensures var b := Parts(e, pool);
      if TakesFirst(e, v) then b.first == BodyCode(Branch(e, v), b.guard.pool) && Placed(b.first, m, FirstAt(b, p))
      else b.second == BodyCode(Branch(e, v), b.first.pool) && Placed(b.second, m, SecondAt(b, p))
  {
    hide Placed, Sym, BodyCode, Wide, Joined, Chained, Code, Parts, FirstAt, SecondAt, JumpOver;
    PartsAre(e, pool);
    IsJoined(e, pool);
    BranchesPlaced(Parts(e, pool), m, p);
  }

  lemma TestPlaced(e: RExpr, pool: Pool, m: Module, p: nat)
    requires (e.Cond? || e.CondElse?) && Placed(Code(e, pool), m, p)
    ensures var b := Parts(e, pool);
      && b.test == Code(e.test, pool) && Placed(Code(e.test, pool), m, p) && p + |Code(e, pool).words| == EndAt(b, p)
      && b.skip == JumpOver(Jump, EndAt(b, p) - SecondAt(b, p), b.first.pool) && Placed(b.skip, m, SkipAt(b, p))
      && (e.Cond? ==> b.second == One(PushNilOp, 0, b.first.pool) && Placed(b.second, m, SecondAt(b, p)))
  {
    hide Placed, Code, Parts, Joined, Chained, Sym, BodyCode, JumpOver;
    PartsAre(e, pool);
    IsJoined(e, pool);
    BranchesPlaced(Parts(e, pool), m, p);
  }

  lemma GuardStretches(e: RExpr, pool: Pool, m: Module, p: nat)
    requires (e.Cond? || e.CondElse?) && Placed(Code(e, pool), m, p)
    ensures var b := Parts(e, pool);
      && b.guard == Sym(AssertBoolOrDnu, SelectorConst(e.sel), b.test.pool) && Placed(b.guard, m, GuardAt(b, p))
      && b.jump == JumpOver(JumpUnless(if e.Cond? then e.onTrue else true), SecondAt(b, p) - FirstAt(b, p), b.guard.pool)
      && Placed(b.jump, m, JumpAt(b, p)) && FirstAt(b, p) <= SecondAt(b, p)
  {
    hide Placed, Sym, BodyCode, Joined, Chained, Code, Parts, JumpOver;
    PartsAre(e, pool);
    IsJoined(e, pool);
    BranchesPlaced(Parts(e, pool), m, p);
  }

  /** The Boolean guard and the jump of a conditional in place. */
  lemma GuardDecodes(e: RExpr, pool: Pool, m: Module, p: nat)
    requires (e.Cond? || e.CondElse?) && Placed(Code(e, pool), m, p)
    ensures var b := Parts(e, pool);
      var i, p1, p2, p3 := Find(b.test.pool.consts, SelectorConst(e.sel)), GuardAt(b, p), JumpAt(b, p), FirstAt(b, p);
      && p1 < |m.words| && Decode(m.words, p1, 0) == Decoded(AssertBoolOrDnu, i, p2)
      && i < |m.consts| && m.consts[i] == SelectorConst(e.sel) && p3 <= SecondAt(b, p)
      && p2 < |m.words|
      && Decode(m.words, p2, 0) == Decoded(JumpUnless(if e.Cond? then e.onTrue else true), SecondAt(b, p) - p3, p3)
  {
    hide Placed, Sym, Decode, Find, Wide, Code, Parts, SecondAt;
    GuardStretches(e, pool, m, p);
    var b := Parts(e, pool);
    var op, offset := JumpUnless(if e.Cond? then e.onTrue else true), SecondAt(b, p) - FirstAt(b, p);
    DecodeSym(AssertBoolOrDnu, SelectorConst(e.sel), b.test.pool, m, GuardAt(b, p));
    DecodeJump(op, offset, b.guard.pool, m, JumpAt(b, p));
    JumpLength(op, offset, b.guard.pool);
  }

  /** Once the test has answered: a Boolean leads to its branch, anything else stops the run. */
  lemma GoesToBranch(e: RExpr, pool: Pool, s: Site, p: nat, v: RValue, slots: RSlots, stack: seq<MValue>, h: RHeap)
    requires (e.Cond? || e.CondElse?) && Placed(Code(e, pool), s.m, p)
    ensures var b := Parts(e, pool);
      var from := Here(s, GuardAt(b, p), slots, stack + [TV(v)], h);
      if v.FBool? then Reaches(from, Here(s, if TakesFirst(e, v.b) then FirstAt(b, p) else SecondAt(b, p), slots, stack, h))
      else Reaches(from, Halted(Dnu(e.sel, TV(v)), THeap(h)))
  {
    hide Placed, Reaches, TV, Here, Decode, Find, Code, Parts, GuardAt, JumpAt, FirstAt, SecondAt;
    var b := Parts(e, pool);
    GuardDecodes(e, pool, s.m, p);
    TestStep(e.sel, Find(b.test.pool.consts, SelectorConst(e.sel)), if e.Cond? then e.onTrue else true,
             SecondAt(b, p) - FirstAt(b, p), s, GuardAt(b, p), JumpAt(b, p), FirstAt(b, p), v, slots, stack, h);
  }

  lemma CondMeaning(e: RExpr, d: Link, slots: RSlots, h: RHeap, fuel: nat)
    requires e.Cond? || e.CondElse?
    ensures var t := Exec(e.test, d, slots, h, fuel);
      Exec(e, d, slots, h, fuel) ==
        if !t.FVal? then t
        else if !t.v.FBool? then FStop(Dnu(e.sel, t.v), t.heap)
        else if e.Cond? && t.v.b != e.onTrue then FVal(FNil, t.slots, t.heap)
        else ExecInline(Branch(e, t.v.b), d, t.slots, t.heap, fuel)
  {
    hide ExecInline;
  }

  lemma SimCond(e: RExpr, pool: Pool, s: Site, p: nat, slots: RSlots, stack: seq<MValue>, h: RHeap, fuel: nat)
    requires (e.Cond? || e.CondElse?) && Shaped(e) && Placed(Code(e, pool), s.m, p) && GoodSlots(slots) && GoodHeap(h)
    ensures Runs(Exec(e, s.dict, slots, h, fuel), Here(s, p, slots, stack, h), s, p + |Code(e, pool).words|, stack)
    decreases fuel, 2, e, 0
  {
    hide Placed, Reaches, TS, TV, THeap, GoodHeap, GoodSlots, Good, Here, Decode, BodyCode, Exec, ExecInline, Wide, Code, Parts,
         FirstAt, JumpOver;
    var b := Parts(e, pool);
    TestPlaced(e, pool, s.m, p);
    CondMeaning(e, s.dict, slots, h, fuel);
    var from, r, end := Here(s, p, slots, stack, h), Exec(e, s.dict, slots, h, fuel), EndAt(b, p);
    SimExec(e.test, pool, s, p, slots, stack, h, fuel);
    var x := Exec(e.test, s.dict, slots, h, fuel);
    if x.FVal? {
      var mid := Here(s, GuardAt(b, p), x.slots, stack + [TV(x.v)], x.heap);
      GoesToBranch(e, pool, s, p, x.v, x.slots, stack, x.heap);
      if x.v.FBool? {
        var q := if TakesFirst(e, x.v.b) then FirstAt(b, p) else SecondAt(b, p);
        if e.Cond? && x.v.b != e.onTrue {
          NilIsGood();
          DecodeOne(PushNilOp, 0, b.first.pool, s.m, q);
          PushStep(s, q, x.slots, stack, x.heap, PushNilOp, 0, end, FNil);
        } else {
          SimBranch(e, pool, s, p, x.v.b, x.slots, stack, x.heap, fuel);
        }
        RunsFrom(r, mid, Here(s, q, x.slots, stack, x.heap), s, end, stack);
      }
      RunsFrom(r, from, mid, s, end, stack);
    }
  }

  lemma SimBranch(e: RExpr, pool: Pool, s: Site, p: nat, v: bool, slots: RSlots, stack: seq<MValue>, h: RHeap, fuel: nat)
    requires (e.Cond? || e.CondElse?) && Shaped(e) && Placed(Code(e, pool), s.m, p) && GoodSlots(slots) && GoodHeap(h)
    requires e.Cond? ==> v == e.onTrue
    ensures var b := Parts(e, pool);
      Runs(ExecInline(Branch(e, v), s.dict, slots, h, fuel),
           Here(s, if TakesFirst(e, v) then FirstAt(b, p) else SecondAt(b, p), slots, stack, h), s, EndAt(b, p), stack)
    decreases fuel, 1, 1
  {
    hide Placed, Runs, Here, BodyCode, ExecInline, Code, Parts, FirstAt, GoodSlots, GoodHeap, JumpOver;
    var b := Parts(e, pool);
    TestPlaced(e, pool, s.m, p);
    BranchPlaced(e, pool, s.m, p, v);
    var r := ExecInline(Branch(e, v), s.dict, slots, h, fuel);
    if TakesFirst(e, v) {
      var q := FirstAt(b, p);
      SimInline(Branch(e, v), b.guard.pool, s, q, slots, stack, h, fuel);
      JumpLength(Jump, EndAt(b, p) - SecondAt(b, p), b.first.pool);
      SkipElse(r, b.first.pool, s, SkipAt(b, p), EndAt(b, p) - SecondAt(b, p), SecondAt(b, p), Here(s, q, slots, stack, h), stack);
    } else {
      SimInline(Branch(e, v), b.first.pool, s, SecondAt(b, p), slots, stack, h, fuel);
    }
  }

  lemma JumpLength(op: Op, offset: nat, p: Pool)
    ensures |JumpOver(op, offset, p).words| == |Wide(op, offset)|
  {
  }

  /** After a branch, the jump over what belongs to the other one. */
  lemma SkipElse(r: FResult, pool: Pool, s: Site, p: nat, offset: nat, next: nat, from: Machine, stack: seq<MValue>)
    requires Placed(JumpOver(Jump, offset, pool), s.m, p) && next == p + |Wide(Jump, offset)|
    requires !r.FVals? && Runs(r, from, s, p, stack)
    ensures Runs(r, from, s, next + offset, stack)
  {
    hide Decode, Reaches, TS, THeap, Placed, Wide;
    if r.FVal? {
      DecodeJump(Jump, offset, pool, s.m, p);
      var full := stack + [TV(r.v)];
      StepAt(s, p, r.slots, full, r.heap, Jump, offset, next);
      ReachesStep(Here(s, p, r.slots, full, r.heap), Here(s, next + offset, r.slots, full, r.heap));
      ReachesTrans(from, Here(s, p, r.slots, full, r.heap), Here(s, next + offset, r.slots, full, r.heap));
    }
  }

  // ----- Inlined loops -----

  function ExitAt(l: LoopParts, p: nat): nat { p + |l.head.words| }
  function BodyAt(l: LoopParts, p: nat): nat { ExitAt(l, p) + ExitWidth(Open(l).words, |l.head.words|) + 1 }
  function TailAt(l: LoopParts, p: nat): nat { BodyAt(l, p) + |l.body.words| }
  function BackAt(l: LoopParts, p: nat): nat { TailAt(l, p) + |l.tail.words| }
  function LoopEnd(l: LoopParts, p: nat): nat { p + |LoopCode(l).words| }

  /** The words of a closed loop, stretch by stretch. */
  lemma LoopWords(l: LoopParts, m: Module, p: nat)
    requires LoopChained(l) && CodeAt(m.words, p, LoopCode(l).words)
    ensures var w, exit := Open(l).words, |l.head.words|;
      var k := ExitWidth(w, exit);
      var back := BackOperand(|w| + k);
      var out := |w| - (exit + 1) + 1 + Prefixes(back);
      && CodeAt(m.words, p, l.head.words) && CodeAt(m.words, p + exit, WideWith(l.exit, out, k))
      && CodeAt(m.words, BodyAt(l, p), l.body.words) && CodeAt(m.words, TailAt(l, p), l.tail.words)
      && CodeAt(m.words, BackAt(l, p), Wide(JumpBack, back))
      && back == LoopEnd(l, p) - p && BodyAt(l, p) + out == LoopEnd(l, p) == BackAt(l, p) + |Wide(JumpBack, back)|
  {
    hide WideWith, Closed, BackOperand, Wide, Open, CodeAt, Prefixes, ExitWidth;
    var w, exit := Open(l).words, |l.head.words|;
    var k := ExitWidth(w, exit);
    var back := BackOperand(|w| + k);
    var out := |w| - (exit + 1) + 1 + Prefixes(back);
    var code, tail := WideWith(l.exit, out, k), Wide(JumpBack, back);
    OpenWords(l);
    ClosedParts(w, 0, exit);
    ClosedRegroup(l.head.words, code, l.body.words, l.tail.words, tail);
    FiveParts(m.words, p, l.head.words, code, l.body.words, l.tail.words, tail);
  }

  lemma FiveParts(words: seq<Word>, p: nat, a: seq<Word>, b: seq<Word>, c: seq<Word>, d: seq<Word>, e: seq<Word>)
    requires CodeAt(words, p, a + (b + (c + (d + e))))
    ensures CodeAt(words, p, a) && CodeAt(words, p + |a|, b) && CodeAt(words, p + |a| + |b|, c)
    ensures CodeAt(words, p + |a| + |b| + |c|, d) && CodeAt(words, p + |a| + |b| + |c| + |d|, e)
  {
    hide CodeAt;
    CodeAtParts(words, p, a, b + (c + (d + e)));
    CodeAtParts(words, p + |a|, b, c + (d + e));
    CodeAtParts(words, p + |a| + |b|, c, d + e);
    CodeAtParts(words, p + |a| + |b| + |c|, d, e);
  }

  /** A closed loop in place: its stretches, its exit jump to the end and its jump back to the start. */
  lemma LoopPlaced(l: LoopParts, m: Module, p: nat)
    requires LoopChained(l) && Placed(LoopCode(l), m, p)
    ensures Placed(l.head, m, p) && Placed(l.body, m, BodyAt(l, p)) && Placed(l.tail, m, TailAt(l, p))
    ensures ExitAt(l, p) < |m.words| && BodyAt(l, p) <= LoopEnd(l, p)
    ensures Decode(m.words, ExitAt(l, p), 0) == Decoded(l.exit, LoopEnd(l, p) - BodyAt(l, p), BodyAt(l, p))
    ensures BackAt(l, p) < |m.words|
    ensures Decode(m.words, BackAt(l, p), 0) == Decoded(JumpBack, LoopEnd(l, p) - p, LoopEnd(l, p))
  {
    LoopWords(l, m, p);
    hide Decode, WideWith, Closed, BackOperand, Wide, Open, CodeAt, Prefixes, BodyAt, TailAt, BackAt, LoopEnd;
    var w, exit := Open(l).words, |l.head.words|;
    var k := ExitWidth(w, exit);
    var back := BackOperand(|w| + k);
    var out := |w| - (exit + 1) + 1 + Prefixes(back);
    OpenWords(l);
    OutFits(w, exit);
    assert BodyAt(l, p) == ExitAt(l, p) + k + 1 by { BodyAtIs(l, p); }
    DecodeWide(m.words, ExitAt(l, p), l.exit, out, k);
    DecodeBack(m.words, BackAt(l, p), back);
    InBounds(m.words, ExitAt(l, p), WideWith(l.exit, out, k));
    InBounds(m.words, BackAt(l, p), Wide(JumpBack, back));
  }

  lemma BodyAtIs(l: LoopParts, p: nat)
    ensures BodyAt(l, p) == ExitAt(l, p) + ExitWidth(Open(l).words, |l.head.words|) + 1
  {
  }

  lemma OutFits(w: seq<Word>, exit: nat)
    requires exit < |w|
    ensures var k := ExitWidth(w, exit);
      var back := BackOperand(|w| + k);
      var out := |w| - (exit + 1) + 1 + Prefixes(back);
      Prefixes(out) <= k && out <= back
  {
  }

  lemma ClosedRegroup(a: seq<Word>, b: seq<Word>, c: seq<Word>, d: seq<Word>, e: seq<Word>)
    ensures a + b + ((c + d) + e) == a + (b + (c + (d + e)))
  {
  }

  lemma InBounds(words: seq<Word>, p: nat, code: seq<Word>)
    requires CodeAt(words, p, code) && code != []
    ensures p < |words|
  {
  }

  lemma BackStep(l: LoopParts, s: Site, p: nat, slots: RSlots, stack: seq<MValue>, h: RHeap)
    requires LoopChained(l) && Placed(LoopCode(l), s.m, p)
    ensures Step(Here(s, BackAt(l, p), slots, stack, h)) == Here(s, p, slots, stack, h)
  {
    hide Decode, TS, THeap, Placed, LoopCode, BodyAt, LoopChained;
    LoopPlaced(l, s.m, p);
    StepAt(s, BackAt(l, p), slots, stack, h, JumpBack, LoopEnd(l, p) - p, LoopEnd(l, p));
  }

  /** The parts of a while loop in place. */
  lemma WhilePlaced(e: RExpr, pool: Pool, m: Module, p: nat)
    requires e.Loop? && Placed(Code(e, pool), m, p)
    ensures var c := SelectorConst(e.sel);
      var g, l, i := BodyCode(e.guard, pool.(consts := Interned(pool.consts, c))), WhileParts(e, pool), Find(pool.consts, c);
      && Placed(LoopCode(l), m, p) && Placed(g, m, p) && p + |g.words| < |m.words|
      && Decode(m.words, p + |g.words|, 0) == Decoded(AssertBoolOrDnu, i, ExitAt(l, p)) && i < |m.consts| && m.consts[i] == c
      && Placed(One(PushNilOp, 0, l.tail.pool), m, LoopEnd(l, p)) && p + |Code(e, pool).words| == LoopEnd(l, p) + 1
  {
    hide LoopCode, BodyCode, Wide, Placed, Decode, Code, WhileParts, BodyAt, TailAt, BackAt, Find, Interned;
    WhileIs(e, pool);
    var l := WhileParts(e, pool);
    var g := BodyCode(e.guard, pool.(consts := Interned(pool.consts, SelectorConst(e.sel))));
    PlacedThen(LoopCode(l), One(PushNilOp, 0, l.tail.pool), m, p);
    LoopPlaced(l, m, p);
    GuardPlaced(g, pool, SelectorConst(e.sel), m, p);
  }

  lemma GuardPlaced(g: Coded, pool: Pool, c: Const, m: Module, p: nat)
    requires Extends(pool.(consts := Interned(pool.consts, c)), g.pool)
    requires Placed(Then(g, Instr(AssertBoolOrDnu, Find(pool.consts, c), g.pool)), m, p)
    ensures var i, p1 := Find(pool.consts, c), p + |g.words|;
      && Placed(g, m, p) && p1 < |m.words| && i < |m.consts| && m.consts[i] == c
      && Decode(m.words, p1, 0) == Decoded(AssertBoolOrDnu, i, p + |Then(g, Instr(AssertBoolOrDnu, i, g.pool)).words|)
  {
    hide Wide, Placed, Decode, Find, Interned;
    PlacedThen(g, Instr(AssertBoolOrDnu, Find(pool.consts, c), g.pool), m, p);
    DecodeInstr(AssertBoolOrDnu, Find(pool.consts, c), g.pool, m, p + |g.words|);
    PlacedPool(g, m, p);
  }

  lemma PlacedPool(c: Coded, m: Module, p: nat)
    requires Placed(c, m, p)
    ensures Extends(c.pool, Pool(m.consts, m.blocks))
  {
  }

  /** A turn of a while loop drops the value of the body and goes back to the start. */
  lemma TurnStep(l: LoopParts, s: Site, p: nat, slots: RSlots, stack: seq<MValue>, h: RHeap, v: MValue)
    requires LoopChained(l) && Placed(LoopCode(l), s.m, p) && l.tail == One(Pop, 0, l.body.pool)
    ensures Reaches(Here(s, TailAt(l, p), slots, stack + [v], h), Here(s, p, slots, stack, h))
  {
    hide Placed, Reaches, TS, THeap, Here, LoopCode, BodyAt;
    LoopPlaced(l, s.m, p);
    PopStep(s, TailAt(l, p), slots, stack, h, l.body.pool, v);
    BackStep(l, s, p, slots, stack, h);
    ReachesStep(Here(s, BackAt(l, p), slots, stack, h), Here(s, p, slots, stack, h));
    ReachesTrans(Here(s, TailAt(l, p), slots, stack + [v], h), Here(s, BackAt(l, p), slots, stack, h), Here(s, p, slots, stack, h));
  }

  lemma LoopMeaning(e: RExpr, d: Link, slots: RSlots, h: RHeap, fuel: nat)
    requires e.Loop?
    ensures Exec(e, d, slots, h, fuel) ==
      if fuel == 0 then FTimeout
      else
        var c := ExecInline(e.guard, d, slots, h, fuel - 1);
        if !c.FVal? then c
        else if !c.v.FBool? then FStop(Dnu(e.sel, c.v), c.heap)
        else if c.v.b != e.onTrue then FVal(FNil, c.slots, c.heap)
        else
          var b := ExecInline(e.body, d, c.slots, c.heap, fuel - 1);
          if !b.FVal? then b else Exec(e, d, b.slots, b.heap, fuel - 1)
  {
    hide ExecInline;
  }

  /** The body of a while loop and the turn behind it, once the condition has let it start. */
  lemma SimTurn(e: RExpr, pool: Pool, s: Site, p: nat, slots: RSlots, stack: seq<MValue>, h: RHeap, fuel: nat, r: FResult)
    requires e.Loop? && Shaped(e) && Placed(Code(e, pool), s.m, p) && GoodSlots(slots) && GoodHeap(h)
    requires var b := ExecInline(e.body, s.dict, slots, h, fuel);
      r == if !b.FVal? then b else Exec(e, s.dict, b.slots, b.heap, fuel)
    ensures Runs(r, Here(s, BodyAt(WhileParts(e, pool), p), slots, stack, h), s, p + |Code(e, pool).words|, stack)
    decreases fuel, 2, e, 3
  {
    hide Placed, Reaches, TS, TV, THeap, GoodHeap, GoodSlots, Good, Here, Decode, BodyCode, ExecInline, Exec, Find, Interned,
         Code, WhileParts, LoopCode, BodyAt, TailAt, ExitAt, LoopEnd, LoopChained, Then;
    var l := WhileParts(e, pool);
    WhileIs(e, pool);
    WhilePlaced(e, pool, s.m, p);
    LoopPlaced(l, s.m, p);
    TailAtIs(l, p);
    var q, end := BodyAt(l, p), p + |Code(e, pool).words|;
    SimInline(e.body, l.head.pool, s, q, slots, stack, h, fuel);
    var b := ExecInline(e.body, s.dict, slots, h, fuel);
    if b.FVal? {
      var done := Here(s, TailAt(l, p), b.slots, stack + [TV(b.v)], b.heap);
      TurnStep(l, s, p, b.slots, stack, b.heap, TV(b.v));
      SimLoop(e, pool, s, p, b.slots, stack, b.heap, fuel);
      RunsFrom(r, done, Here(s, p, b.slots, stack, b.heap), s, end, stack);
      RunsFrom(r, Here(s, q, slots, stack, h), done, s, end, stack);
    }
  }

  lemma WhileExitOp(e: RExpr, pool: Pool)
    requires e.Loop?
    ensures WhileParts(e, pool).exit == JumpUnless(e.onTrue)
  {
    hide BodyCode, Wide, Interned, Find;
  }

  /** Where the guard of a while loop and its exit jump stand, and what they decode to. */
  lemma WhileDecodes(e: RExpr, pool: Pool, m: Module, p: nat, p1: nat)
    requires e.Loop? && Placed(Code(e, pool), m, p)
    requires p1 == p + |BodyCode(e.guard, pool.(consts := Interned(pool.consts, SelectorConst(e.sel)))).words|
    ensures var l, i := WhileParts(e, pool), Find(pool.consts, SelectorConst(e.sel));
      && p1 < |m.words| && Decode(m.words, p1, 0) == Decoded(AssertBoolOrDnu, i, ExitAt(l, p))
      && i < |m.consts| && m.consts[i] == SelectorConst(e.sel) && BodyAt(l, p) <= LoopEnd(l, p)
      && ExitAt(l, p) < |m.words|
      && Decode(m.words, ExitAt(l, p), 0) == Decoded(JumpUnless(e.onTrue), LoopEnd(l, p) - BodyAt(l, p), BodyAt(l, p))
  {
    hide Placed, Decode, BodyCode, Find, Interned, Code, WhileParts, LoopCode, BodyAt, ExitAt, LoopEnd, LoopChained, JumpUnless, TailAt, BackAt;
    WhileExitOp(e, pool);
    WhilePlaced(e, pool, m, p);
    LoopPlaced(WhileParts(e, pool), m, p);
  }

  /** The guard of a while loop decides: stop, leave or start the body. */
  lemma WhileTest(e: RExpr, pool: Pool, s: Site, p: nat, p1: nat, v: RValue, slots: RSlots, stack: seq<MValue>, h: RHeap)
    requires e.Loop? && Placed(Code(e, pool), s.m, p)
    requires p1 == p + |BodyCode(e.guard, pool.(consts := Interned(pool.consts, SelectorConst(e.sel)))).words|
    ensures var l, mid := WhileParts(e, pool), Here(s, p1, slots, stack + [TV(v)], h);
      if v.FBool? then Reaches(mid, Here(s, if v.b == e.onTrue then BodyAt(l, p) else LoopEnd(l, p), slots, stack, h))
      else Reaches(mid, Halted(Dnu(e.sel, TV(v)), THeap(h)))
  {
    hide *;
    WhileDecodes(e, pool, s.m, p, p1);
    var l := WhileParts(e, pool);
    var q, end := BodyAt(l, p), LoopEnd(l, p);
    TestStep(e.sel, Find(pool.consts, SelectorConst(e.sel)), e.onTrue, end - q, s, p1, ExitAt(l, p), q, v, slots, stack, h);
    assert q + (end - q) == end;
  }

  /** Behind the loop there is nil. */
  lemma WhileExit(e: RExpr, pool: Pool, s: Site, p: nat, slots: RSlots, stack: seq<MValue>, h: RHeap)
    requires e.Loop? && Placed(Code(e, pool), s.m, p) && GoodSlots(slots) && GoodHeap(h)
    ensures Runs(FVal(FNil, slots, h), Here(s, LoopEnd(WhileParts(e, pool), p), slots, stack, h), s, p + |Code(e, pool).words|, stack)
  {
    hide Placed, Reaches, TS, THeap, GoodHeap, GoodSlots, Here, Decode, BodyCode, Find, Interned, Code, WhileParts, LoopCode, LoopEnd, Runs;
    WhilePlaced(e, pool, s.m, p);
    var l := WhileParts(e, pool);
    var end := LoopEnd(l, p);
    NilIsGood();
    DecodeOne(PushNilOp, 0, l.tail.pool, s.m, end);
    PushStep(s, end, slots, stack, h, PushNilOp, 0, end + 1, FNil);
  }

  lemma GuardIsPlaced(e: RExpr, pool: Pool, m: Module, p: nat)
    requires e.Loop? && Placed(Code(e, pool), m, p)
    ensures Placed(BodyCode(e.guard, pool.(consts := Interned(pool.consts, SelectorConst(e.sel)))), m, p)
  {
    hide Placed, BodyCode, Code, WhileParts, LoopCode;
    WhilePlaced(e, pool, m, p);
  }

  lemma SimLoop(e: RExpr, pool: Pool, s: Site, p: nat, slots: RSlots, stack: seq<MValue>, h: RHeap, fuel: nat)
    requires e.Loop? && Shaped(e) && Placed(Code(e, pool), s.m, p) && GoodSlots(slots) && GoodHeap(h)
    ensures Runs(Exec(e, s.dict, slots, h, fuel), Here(s, p, slots, stack, h), s, p + |Code(e, pool).words|, stack)
    decreases fuel, 2, e, 0
  {
    hide Placed, Reaches, TS, TV, THeap, GoodHeap, GoodSlots, Good, Here, BodyCode, ExecInline, Exec, Interned, Code, WhileParts, BodyAt, LoopEnd;
    LoopMeaning(e, s.dict, slots, h, fuel);
    if fuel > 0 {
      var from, r, end := Here(s, p, slots, stack, h), Exec(e, s.dict, slots, h, fuel), p + |Code(e, pool).words|;
      var q0 := pool.(consts := Interned(pool.consts, SelectorConst(e.sel)));
      GuardIsPlaced(e, pool, s.m, p);
      SimInline(e.guard, q0, s, p, slots, stack, h, fuel - 1);
      var c := ExecInline(e.guard, s.dict, slots, h, fuel - 1);
      if c.FVal? {
        var mid := Here(s, p + |BodyCode(e.guard, q0).words|, c.slots, stack + [TV(c.v)], c.heap);
        WhileTest(e, pool, s, p, p + |BodyCode(e.guard, q0).words|, c.v, c.slots, stack, c.heap);
        if c.v.FBool? && c.v.b == e.onTrue {
          SimTurn(e, pool, s, p, c.slots, stack, c.heap, fuel - 1, r);
          RunsFrom(r, mid, Here(s, BodyAt(WhileParts(e, pool), p), c.slots, stack, c.heap), s, end, stack);
        } else if c.v.FBool? {
          WhileExit(e, pool, s, p, c.slots, stack, c.heap);
          RunsFrom(r, mid, Here(s, LoopEnd(WhileParts(e, pool), p), c.slots, stack, c.heap), s, end, stack);
        }
        RunsFrom(r, from, mid, s, end, stack);
      }
    }
  }

  lemma TailAtIs(l: LoopParts, p: nat)
    ensures TailAt(l, p) == BodyAt(l, p) + |l.body.words|
  {
  }

  // ----- Inlined to:do: -----

  /** Storing the value on top of the stack in a slot, and dropping it. */
  lemma SlotStep(s: Site, p: nat, slots: RSlots, stack: seq<MValue>, h: RHeap, pool: Pool, slot: nat, v: RValue)
    requires Placed(Instr(Op.StoreLocal, slot, pool), s.m, p) && GoodSlots(slots) && Good(v)
    ensures GoodSlots(slots[slot := v])
    ensures Reaches(Here(s, p, slots, stack + [TV(v)], h), Here(s, p + |Wide(Op.StoreLocal, slot)|, slots[slot := v], stack, h))
  {
    hide Decode, Reaches, TS, TV, THeap, Placed, Wide, Good, GoodSlots;
    DecodeInstr(Op.StoreLocal, slot, pool, s.m, p);
    TStoreSlot(slots, slot, v);
    var next := p + |Wide(Op.StoreLocal, slot)|;
    StepAt(s, p, slots, stack + [TV(v)], h, Op.StoreLocal, slot, next);
    assert (stack + [TV(v)])[..|stack|] == stack;
    ReachesStep(Here(s, p, slots, stack + [TV(v)], h), Here(s, next, slots[slot := v], stack, h));
  }

  lemma LoadStep(s: Site, p: nat, slots: RSlots, stack: seq<MValue>, h: RHeap, pool: Pool, slot: nat)
    requires Placed(Instr(PushLocal, slot, pool), s.m, p) && GoodSlots(slots) && GoodHeap(h)
    ensures Reaches(Here(s, p, slots, stack, h), Here(s, p + |Wide(PushLocal, slot)|, slots, stack + [TV(ReadSlot(slots, slot))], h))
  {
    hide Decode, Reaches, TS, TV, THeap, Placed, Wide, Good, GoodSlots, GoodHeap, ReadSlot;
    DecodeInstr(PushLocal, slot, pool, s.m, p);
    TReadSlot(slots, slot);
    PushStep(s, p, slots, stack, h, PushLocal, slot, p + |Wide(PushLocal, slot)|, ReadSlot(slots, slot));
  }

  lemma LiteralStep(s: Site, p: nat, slots: RSlots, stack: seq<MValue>, h: RHeap, pool: Pool, i: nat, n: int)
    requires Placed(Instr(PushConst, i, pool), s.m, p) && i < |pool.consts| && pool.consts[i] == IntConst(n)
    requires GoodSlots(slots) && GoodHeap(h)
    ensures Reaches(Here(s, p, slots, stack, h), Here(s, p + |Wide(PushConst, i)|, slots, stack + [FInt(n)], h))
  {
    hide Decode, Reaches, TS, THeap, Wide, GoodSlots, GoodHeap;
    DecodeInstr(PushConst, i, pool, s.m, p);
    PushStep(s, p, slots, stack, h, PushConst, i, p + |Wide(PushConst, i)|, FInt(n));
  }

  /** Two values are loaded and compared or added. */
  lemma OperateStep(op: BinOp, pool: Pool, s: Site, p: nat, a: RValue, b: RValue, slots: RSlots, stack: seq<MValue>, h: RHeap,
                    from: Machine, mid: Machine)
    requires Placed(Sym(BinInt(op), OperatorConst(op), pool), s.m, p) && GoodSlots(slots) && GoodHeap(h)
    requires Reaches(from, mid) && Reaches(mid, Here(s, p, slots, stack + [TV(a)] + [TV(b)], h))
    ensures Runs(Operated(op, a, FVal(b, slots, h)), from, s, p + |Sym(BinInt(op), OperatorConst(op), pool).words|, stack)
  {
    hide Reaches, TS, TV, THeap, Placed, Sym, Here, GoodSlots, GoodHeap, Runs;
    OperatorStep(op, pool, s, p, a, FVal(b, slots, h), stack);
    var r, next := Operated(op, a, FVal(b, slots, h)), p + |Sym(BinInt(op), OperatorConst(op), pool).words|;
    ReachesTrans(from, mid, Here(s, p, slots, stack + [TV(a)] + [TV(b)], h));
    RunsFrom(r, from, Here(s, p, slots, stack + [TV(a)] + [TV(b)], h), s, next, stack);
  }

  /** Counter and bound compared. */
  lemma HeadStep(e: RExpr, pool: Pool, s: Site, p: nat, slots: RSlots, stack: seq<MValue>, h: RHeap)
    requires e.CountLoop? && Placed(HeadCode(e, pool), s.m, p) && GoodSlots(slots) && GoodHeap(h)
    ensures Runs(Operated(Le, ReadSlot(slots, e.slotI), FVal(ReadSlot(slots, e.slotEnd), slots, h)),
                 Here(s, p, slots, stack, h), s, p + |HeadCode(e, pool).words|, stack)
  {
    hide Reaches, TS, TV, THeap, Placed, Sym, Here, GoodSlots, GoodHeap, Runs, Wide, ReadSlot;
    var a, b, c := Instr(PushLocal, e.slotI, pool), Instr(PushLocal, e.slotEnd, pool), Sym(BinInt(Le), OperatorConst(Le), pool);
    PlacedThen(a, Then(b, c), s.m, p);
    PlacedThen(b, c, s.m, p + |a.words|);
    LoadStep(s, p, slots, stack, h, pool, e.slotI);
    var i := ReadSlot(slots, e.slotI);
    LoadStep(s, p + |a.words|, slots, stack + [TV(i)], h, pool, e.slotEnd);
    OperateStep(Le, pool, s, p + |a.words| + |b.words|, i, ReadSlot(slots, e.slotEnd), slots, stack, h,
                Here(s, p, slots, stack, h), Here(s, p + |a.words|, slots, stack + [TV(i)], h));
  }

  /** The counter, one higher. */
  function Bumped(slots: RSlots, slot: nat, h: RHeap): FResult {
    var j := ReadSlot(slots, slot);
    if j.FInt? then FVal(FNil, slots[slot := FInt(j.n + 1)], h) else FStop(NotInteger(j, FInt(1)), h)
  }

  lemma IncrementStep(slot: nat, pool: Pool, s: Site, p: nat, slots: RSlots, stack: seq<MValue>, h: RHeap)
    requires Placed(Increment(slot, pool), s.m, p) && GoodSlots(slots) && GoodHeap(h)
    ensures var b, from := Bumped(slots, slot, h), Here(s, p, slots, stack, h);
      if b.FVal? then GoodSlots(b.slots) && Reaches(from, Here(s, p + |Increment(slot, pool).words|, b.slots, stack, h))
      else StopsAs(b, from)
  {
    hide Reaches, TS, THeap, Placed, Sym, Here, GoodSlots, GoodHeap, Wide, ReadSlot;
    var pool' := pool.(consts := pool.consts + [IntConst(1)]);
    var add := Sym(BinInt(Add), OperatorConst(Add), pool');
    var a, b, d := Instr(PushLocal, slot, pool'), Instr(PushConst, |pool.consts|, pool'), Instr(Op.StoreLocal, slot, add.pool);
    PlacedThen(a, Then(b, Then(add, d)), s.m, p);
    PlacedThen(b, Then(add, d), s.m, p + |a.words|);
    PlacedThen(add, d, s.m, p + |a.words| + |b.words|);
    var j := ReadSlot(slots, slot);
    var from, mid := Here(s, p, slots, stack, h), Here(s, p + |a.words|, slots, stack + [TV(j)], h);
    LoadStep(s, p, slots, stack, h, pool', slot);
    assert pool'.consts[|pool.consts|] == IntConst(1);
    LiteralStep(s, p + |a.words|, slots, stack + [TV(j)], h, pool', |pool.consts|, 1);
    OperateStep(Add, pool', s, p + |a.words| + |b.words|, j, FInt(1), slots, stack, h, from, mid);
    if j.FInt? {
      var q, v: RValue := p + |a.words| + |b.words| + |add.words|, FInt(j.n + 1);
      SlotStep(s, q, slots, stack, h, add.pool, slot, v);
      ReachesTrans(from, Here(s, q, slots, stack + [TV(v)], h), Here(s, q + |d.words|, slots[slot := v], stack, h));
    }
  }

  /** The end of a turn: the value of the body is dropped and the counter goes up. */
  lemma CountTail(e: RExpr, pool: Pool, s: Site, p: nat, slots: RSlots, stack: seq<MValue>, h: RHeap, v: MValue)
    requires e.CountLoop? && Placed(LoopCode(CountParts(e, pool)), s.m, p) && GoodSlots(slots) && GoodHeap(h)
    ensures var l := CountParts(e, pool);
      var b, from := Bumped(slots, e.slotI, h), Here(s, TailAt(l, p), slots, stack + [v], h);
      if b.FVal? then GoodSlots(b.slots) && Reaches(from, Here(s, BackAt(l, p), b.slots, stack, h)) else StopsAs(b, from)
  {
    hide Placed, Reaches, TS, THeap, TWhy, Here, LoopCode, BodyAt, TailAt, BackAt, CountParts, GoodSlots, GoodHeap, Bumped, Increment;
    var l := CountParts(e, pool);
    TailPlaced(e, pool, s.m, p);
    var q := TailAt(l, p);
    PopStep(s, q, slots, stack, h, l.body.pool, v);
    IncrementStep(e.slotI, l.body.pool, s, q + 1, slots, stack, h);
    var b, from, mid := Bumped(slots, e.slotI, h), Here(s, q, slots, stack + [v], h), Here(s, q + 1, slots, stack, h);
    if b.FVal? {
      ReachesTrans(from, mid, Here(s, BackAt(l, p), b.slots, stack, h));
    } else {
      BumpStops(slots, e.slotI, h);
      ReachesTrans(from, mid, Halted(TWhy(b.why), THeap(b.heap)));
    }
  }

  lemma CountTurn(e: RExpr, pool: Pool, s: Site, p: nat, slots: RSlots, stack: seq<MValue>, h: RHeap, v: MValue)
    requires e.CountLoop? && Placed(LoopCode(CountParts(e, pool)), s.m, p) && GoodSlots(slots) && GoodHeap(h)
    ensures var b, from := Bumped(slots, e.slotI, h), Here(s, TailAt(CountParts(e, pool), p), slots, stack + [v], h);
      if b.FVal? then GoodSlots(b.slots) && Reaches(from, Here(s, p, b.slots, stack, h)) else StopsAs(b, from)
  {
    hide Placed, Reaches, TS, THeap, Here, LoopCode, BodyAt, TailAt, BackAt, CountParts, GoodSlots, GoodHeap, Bumped, StopsAs;
    var l, b := CountParts(e, pool), Bumped(slots, e.slotI, h);
    CountTail(e, pool, s, p, slots, stack, h, v);
    if b.FVal? {
      BackStep(l, s, p, b.slots, stack, h);
      ReachesStep(Here(s, BackAt(l, p), b.slots, stack, h), Here(s, p, b.slots, stack, h));
      ReachesTrans(Here(s, TailAt(l, p), slots, stack + [v], h), Here(s, BackAt(l, p), b.slots, stack, h), Here(s, p, b.slots, stack, h));
    }
  }

  lemma TailPlaced(e: RExpr, pool: Pool, m: Module, p: nat)
    requires e.CountLoop? && Placed(LoopCode(CountParts(e, pool)), m, p)
    ensures var l := CountParts(e, pool);
      var q, inc := TailAt(l, p), Increment(e.slotI, l.body.pool);
      Placed(One(Pop, 0, l.body.pool), m, q) && Placed(inc, m, q + 1) && BackAt(l, p) == q + 1 + |inc.words|
  {
    hide Placed, LoopCode, BodyAt, TailAt, CountParts, Increment, BodyCode, HeadCode, Decode, LoopEnd, ExitAt;
    var l := CountParts(e, pool);
    CountIs(e, pool);
    LoopPlaced(l, m, p);
    PlacedThen(One(Pop, 0, l.body.pool), Increment(e.slotI, l.body.pool), m, TailAt(l, p));
  }

  lemma BumpStops(slots: RSlots, slot: nat, h: RHeap)
    ensures var b := Bumped(slots, slot, h); b.FVal? || b.FStop?
  {
  }

  lemma CountMeaning(e: RExpr, start: RValue, d: Link, slots: RSlots, h: RHeap, fuel: nat)
    requires e.CountLoop?
    ensures var c := Operated(Le, ReadSlot(slots, e.slotI), FVal(ReadSlot(slots, e.slotEnd), slots, h));
      ExecCount(e, start, d, slots, h, fuel) ==
      if !c.FVal? then c
      else if c.v == FBool(false) then FVal(start, slots, h)
      else if fuel == 0 then FTimeout
      else
        var b := ExecInline(e.body, d, slots, h, fuel - 1);
        if !b.FVal? then b
        else
          var t := Bumped(b.slots, e.slotI, b.heap);
          if t.FVal? then ExecCount(e, start, d, t.slots, b.heap, fuel - 1) else t
    ensures var c := Operated(Le, ReadSlot(slots, e.slotI), FVal(ReadSlot(slots, e.slotEnd), slots, h));
      c.FVal? ==> c.v.FBool? && c.slots == slots && c.heap == h
  {
    hide ExecInline, ReadSlot;
  }

  /** Compared to false, the exit jump leaves the loop; otherwise the body comes next. */
  lemma ExitStep(l: LoopParts, s: Site, p: nat, slots: RSlots, stack: seq<MValue>, h: RHeap, b: bool)
    requires LoopChained(l) && l.exit == JumpIfFalse && Placed(LoopCode(l), s.m, p)
    ensures Reaches(Here(s, ExitAt(l, p), slots, stack + [FBool(b)], h), Here(s, if b then BodyAt(l, p) else LoopEnd(l, p), slots, stack, h))
  {
    hide *;
    LoopPlaced(l, s.m, p);
    FalseStep(s, ExitAt(l, p), slots, stack, h, LoopEnd(l, p) - BodyAt(l, p), BodyAt(l, p), b);
  }

  lemma FalseStep(s: Site, p: nat, slots: RSlots, stack: seq<MValue>, h: RHeap, arg: nat, next: nat, b: bool)
    requires p < |s.m.words| && Decode(s.m.words, p, 0) == Decoded(JumpIfFalse, arg, next)
    ensures Reaches(Here(s, p, slots, stack + [FBool(b)], h), Here(s, if b then next else next + arg, slots, stack, h))
  {
    hide Decode, Reaches, TS, THeap;
    var full := stack + [FBool(b)];
    StepAt(s, p, slots, full, h, JumpIfFalse, arg, next);
    assert full[..|full| - 1] == stack;
    ReachesStep(Here(s, p, slots, full, h), Here(s, if b then next else next + arg, slots, stack, h));
  }

  /** Counter and bound compared and the exit decided. */
  lemma TestCount(e: RExpr, pool: Pool, s: Site, p: nat, slots: RSlots, kept: seq<MValue>, h: RHeap)
    requires e.CountLoop? && Placed(LoopCode(CountParts(e, pool)), s.m, p) && GoodSlots(slots) && GoodHeap(h)
    ensures var c, from := Operated(Le, ReadSlot(slots, e.slotI), FVal(ReadSlot(slots, e.slotEnd), slots, h)), Here(s, p, slots, kept, h);
      var l := CountParts(e, pool);
      if c.FVal? then c.v.FBool? && Reaches(from, Here(s, if c.v.b then BodyAt(l, p) else LoopEnd(l, p), slots, kept, h))
      else c.FStop? && StopsAs(c, from)
  {
    hide Placed, Reaches, TS, TV, THeap, GoodHeap, GoodSlots, Good, Here, Operated, CountParts, LoopCode, BodyAt, TailAt, BackAt,
         ExitAt, LoopEnd, ReadSlot, HeadCode, BodyCode, LoopChained, Decode;
    CountIs(e, pool);
    var l := CountParts(e, pool);
    LoopPlaced(l, s.m, p);
    HeadStep(e, pool, s, p, slots, kept, h);
    CompareIsBool(ReadSlot(slots, e.slotI), ReadSlot(slots, e.slotEnd), slots, h);
    ExitAtIs(l, p);
    var c, from := Operated(Le, ReadSlot(slots, e.slotI), FVal(ReadSlot(slots, e.slotEnd), slots, h)), Here(s, p, slots, kept, h);
    if c.FVal? {
      ExitStep(l, s, p, slots, kept, h, c.v.b);
      ReachesTrans(from, Here(s, ExitAt(l, p), slots, kept + [TV(c.v)], h),
                   Here(s, if c.v.b then BodyAt(l, p) else LoopEnd(l, p), slots, kept, h));
    }
  }

  lemma CompareIsBool(a: RValue, b: RValue, slots: RSlots, h: RHeap)
    ensures var c := Operated(Le, a, FVal(b, slots, h));
      if c.FVal? then c.v.FBool? && TV(c.v) == FBool(c.v.b) && c.slots == slots && c.heap == h else c.FStop?
  {
  }

  lemma SimCountFrom(e: RExpr, start: RValue, pool: Pool, s: Site, p: nat, slots: RSlots, stack: seq<MValue>, h: RHeap, fuel: nat)
    requires e.CountLoop? && AllShaped(e.body) && Placed(LoopCode(CountParts(e, pool)), s.m, p)
    requires GoodSlots(slots) && GoodHeap(h) && Good(start)
    ensures Runs(ExecCount(e, start, s.dict, slots, h, fuel), Here(s, p, slots, stack + [TV(start)], h), s,
                 LoopEnd(CountParts(e, pool), p), stack)
    decreases fuel, 2, e, 0
  {
    hide Placed, Reaches, TS, TV, THeap, GoodHeap, GoodSlots, Good, Here, BodyCode, ExecInline, ExecCount, Operated, Bumped,
         CountParts, LoopCode, BodyAt, TailAt, BackAt, ExitAt, LoopEnd, ReadSlot, HeadCode, LoopChained, Decode;
    CountMeaning(e, start, s.dict, slots, h, fuel);
    TestCount(e, pool, s, p, slots, stack + [TV(start)], h);
    var l, kept := CountParts(e, pool), stack + [TV(start)];
    var c := Operated(Le, ReadSlot(slots, e.slotI), FVal(ReadSlot(slots, e.slotEnd), slots, h));
    var r, q, end := ExecCount(e, start, s.dict, slots, h, fuel), BodyAt(l, p), LoopEnd(l, p);
    if c.FVal? && c.v.b && fuel > 0 {
      CountIs(e, pool);
      LoopPlaced(l, s.m, p);
      TailAtIs(l, p);
      var body := Here(s, q, slots, kept, h);
      SimInline(e.body, l.head.pool, s, q, slots, kept, h, fuel - 1);
      var b := ExecInline(e.body, s.dict, slots, h, fuel - 1);
      if b.FVal? {
        CountTurn(e, pool, s, p, b.slots, kept, b.heap, TV(b.v));
        BumpStops(b.slots, e.slotI, b.heap);
        var t, done := Bumped(b.slots, e.slotI, b.heap), Here(s, TailAt(l, p), b.slots, kept + [TV(b.v)], b.heap);
        if t.FVal? {
          SimCountFrom(e, start, pool, s, p, t.slots, stack, b.heap, fuel - 1);
          RunsFrom(r, done, Here(s, p, t.slots, kept, b.heap), s, end, stack);
        }
        RunsFrom(r, body, done, s, end, stack);
      }
      RunsFrom(r, Here(s, p, slots, kept, h), body, s, end, stack);
    }
  }

  lemma ExitAtIs(l: LoopParts, p: nat)
    ensures ExitAt(l, p) == p + |l.head.words|
  {
  }

  lemma SimCountLoop(e: RExpr, pool: Pool, s: Site, p: nat, slots: RSlots, stack: seq<MValue>, h: RHeap, fuel: nat)
    requires e.CountLoop? && Shaped(e) && Placed(Code(e, pool), s.m, p) && GoodSlots(slots) && GoodHeap(h)
    ensures Runs(Exec(e, s.dict, slots, h, fuel), Here(s, p, slots, stack, h), s, p + |Code(e, pool).words|, stack)
    decreases fuel, 2, e, 1
  {
    hide Placed, Reaches, TS, TV, THeap, GoodHeap, GoodSlots, Good, Here, Code, Exec, ExecCount, CountParts, LoopCode, Wide, Setup;
    SetupIs(e, pool);
    CountLoopMeaning(e, s.dict, slots, h, fuel);
    var a := Setup(e, pool);
    var u := Code(e.start, pool);
    var t := Code(e.stop, u.pool);
    var i, j := Instr(Op.StoreLocal, e.slotI, u.pool), Instr(Op.StoreLocal, e.slotEnd, t.pool);
    var p1 := p + |u.words|;
    var p2 := p1 + 1;
    var p3 := p2 + |i.words|;
    var p4 := p3 + |t.words|;
    var p5 := p4 + |j.words|;
    PlacedThen(a, LoopCode(CountParts(e, a.pool)), s.m, p);
    SetupPlaced(u, i, t, j, s.m, p);
    var end := LoopEnd(CountParts(e, a.pool), p5);
    var from, r := Here(s, p, slots, stack, h), Exec(e, s.dict, slots, h, fuel);
    SimExec(e.start, pool, s, p, slots, stack, h, fuel);
    var x := Exec(e.start, s.dict, slots, h, fuel);
    if x.FVal? {
      var kept, m1 := stack + [TV(x.v)], Here(s, p1, x.slots, stack + [TV(x.v)], x.heap);
      var slots1 := x.slots[e.slotI := x.v];
      DupStep(s, p1, x.slots, stack, x.heap, u.pool, TV(x.v));
      assert stack + [TV(x.v), TV(x.v)] == kept + [TV(x.v)];
      SlotStep(s, p2, x.slots, kept, x.heap, u.pool, e.slotI, x.v);
      var m2, m3 := Here(s, p2, x.slots, kept + [TV(x.v)], x.heap), Here(s, p3, slots1, kept, x.heap);
      SimExec(e.stop, u.pool, s, p3, slots1, kept, x.heap, fuel);
      var y := Exec(e.stop, s.dict, slots1, x.heap, fuel);
      if y.FVal? {
        var slots2 := y.slots[e.slotEnd := y.v];
        SlotStep(s, p4, y.slots, kept, y.heap, t.pool, e.slotEnd, y.v);
        SimCountFrom(e, x.v, a.pool, s, p5, slots2, stack, y.heap, fuel);
        var m4 := Here(s, p4, y.slots, kept + [TV(y.v)], y.heap);
        RunsFrom(r, m4, Here(s, p5, slots2, kept, y.heap), s, end, stack);
        RunsFrom(r, m3, m4, s, end, stack);
      }
      RunsFrom(r, m2, m3, s, end, stack);
      RunsFrom(r, m1, m2, s, end, stack);
      RunsFrom(r, from, m1, s, end, stack);
    }
  }

  lemma SetupPlaced(u: Coded, i: Coded, t: Coded, j: Coded, m: Module, p: nat)
    requires Placed(Then(u, Then(One(Dup, 0, u.pool), Then(i, Then(t, j)))), m, p)
    requires i.pool == u.pool && Extends(u.pool, t.pool) && j.pool == t.pool
    ensures Placed(u, m, p) && Placed(One(Dup, 0, u.pool), m, p + |u.words|) && Placed(i, m, p + |u.words| + 1)
    ensures Placed(t, m, p + |u.words| + 1 + |i.words|) && Placed(j, m, p + |u.words| + 1 + |i.words| + |t.words|)
    ensures |Then(u, Then(One(Dup, 0, u.pool), Then(i, Then(t, j)))).words| == |u.words| + 1 + |i.words| + |t.words| + |j.words|
  {
    hide Placed;
    var d := One(Dup, 0, u.pool);
    PlacedThen(u, Then(d, Then(i, Then(t, j))), m, p);
    PlacedThen(d, Then(i, Then(t, j)), m, p + |u.words|);
    PlacedThen(i, Then(t, j), m, p + |u.words| + 1);
    PlacedThen(t, j, m, p + |u.words| + 1 + |i.words|);
  }

  lemma CountLoopMeaning(e: RExpr, d: Link, slots: RSlots, h: RHeap, fuel: nat)
    requires e.CountLoop?
    ensures var a := Exec(e.start, d, slots, h, fuel);
      Exec(e, d, slots, h, fuel) ==
      if !a.FVal? then a
      else
        var b := Exec(e.stop, d, a.slots[e.slotI := a.v], a.heap, fuel);
        if !b.FVal? then b else ExecCount(e, a.v, d, b.slots[e.slotEnd := b.v], b.heap, fuel)
  {
    hide ExecCount;
  }
}
