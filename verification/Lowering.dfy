/** Resolved blocks and the modules assembled from them: the same values, the same heap. */
module Lowering {
  import opened Syntax
  import opened Resolve
  import opened Reference
  import opened Frames
  import opened Bytecode
  import opened Layout
  import opened Codegen
  import opened Engine

  function TV(v: RValue): MValue {
    match v
    case FInt(n) => FInt(n)
    case FBool(b) => FBool(b)
    case FNil => FNil
    case FSelf => FSelf
    case Closure(blk, d) => Closure(Assembled(blk, false), d)
  }

  function TSeq(vs: seq<RValue>): (r: seq<MValue>)
    ensures |r| == |vs| && forall i :: 0 <= i < |vs| ==> r[i] == TV(vs[i])
  {
    seq(|vs|, i requires 0 <= i < |vs| => TV(vs[i]))
  }

  function TS(s: RSlots): MSlots { map i | i in s :: TV(s[i]) }
  function TB(s: map<string, RValue>): map<string, MValue> { map x | x in s :: TV(s[x]) }

  function THeap(h: RHeap): MHeap {
    Heap(seq(|h.dicts|, i requires 0 <= i < |h.dicts| => Dict(h.dicts[i].parent, TB(h.dicts[i].binds))), TB(h.self))
  }

  function TWhy(w: Why<RValue>): Why<MValue> {
    match w
    case Returned(v) => Returned(TV(v))
    case Dnu(s, v) => Dnu(s, TV(v))
    case LoopNotBoolean(s, v) => LoopNotBoolean(s, TV(v))
    case NotInteger(a, b) => NotInteger(TV(a), TV(b))
    case NotABlock => NotABlock
    case WrongArgCount => WrongArgCount
    case NoDictionary => NoDictionary
  }

  /** The assembler raised no error for the block, and no forward jump of it is too long. */
  predicate Compiles(blk: RBlock, isMethod: bool) {
    BlockCode(blk, isMethod).ok && BlockCode(blk, isMethod).near
  }

  function Length(es: RExprs): nat { if es.RNil? then 0 else 1 + Length(es.tail) }

  /** Every send has as many arguments as its selector has colons. */
  predicate Shaped(e: RExpr) {
    match e
    case StoreLocal(_, v) => Shaped(v)
    case StoreCaptured(_, v) => Shaped(v)
    case StoreInstVar(_, v) => Shaped(v)
    case Arith(_, l, r) => Shaped(l) && Shaped(r)
    case SendMsg(sel, r, args) => Length(args) == Arity(sel) && Shaped(r) && AllShaped(args)
    case MakeBlock(blk) => AllShaped(blk.body)
    case ReturnFromHome(v) => Shaped(v)
    case Cond(_, _, t, b) => Shaped(t) && AllShaped(b)
    case CondElse(_, t, a, b) => Shaped(t) && AllShaped(a) && AllShaped(b)
    case Loop(_, _, g, b) => AllShaped(g) && AllShaped(b)
    case CountLoop(_, _, s, t, b) => Shaped(s) && Shaped(t) && AllShaped(b)
    case _ => true
  }

  predicate AllShaped(es: RExprs) { es.RNil? || (Shaped(es.head) && AllShaped(es.tail)) }

  predicate Good(v: RValue) { v.Closure? ==> Compiles(v.code, false) && AllShaped(v.code.body) }
  predicate GoodAll(vs: seq<RValue>) { forall i :: 0 <= i < |vs| ==> Good(vs[i]) }
  predicate GoodSlots(s: RSlots) { forall i | i in s :: Good(s[i]) }
  predicate GoodBinds(b: map<string, RValue>) { forall x | x in b :: Good(b[x]) }
  predicate GoodHeap(h: RHeap) {
    GoodBinds(h.self) && forall i :: 0 <= i < |h.dicts| ==> GoodBinds(h.dicts[i].binds)
  }

  lemma TShapes(h: RHeap)
    ensures ShapesOf(THeap(h)) == ShapesOf(h)
  {
    assert forall i :: 0 <= i < |h.dicts| ==> TB(h.dicts[i].binds).Keys == h.dicts[i].binds.Keys;
  }

  lemma TReadCaptured(h: RHeap, d: Link, x: string)
    requires GoodHeap(h)
    ensures ReadCaptured(THeap(h), d, x) == TV(ReadCaptured(h, d, x)) && Good(ReadCaptured(h, d, x))
  {
    TShapes(h);
  }

  lemma TBindIn(h: RHeap, id: nat, x: string, v: RValue)
    requires id < |h.dicts| && GoodHeap(h) && Good(v)
    ensures BindIn(THeap(h), id, x, TV(v)) == THeap(BindIn(h, id, x, v)) && GoodHeap(BindIn(h, id, x, v))
  {
    var a, b := BindIn(THeap(h), id, x, TV(v)), THeap(BindIn(h, id, x, v));
    assert TB(h.dicts[id].binds[x := v]) == TB(h.dicts[id].binds)[x := TV(v)];
    assert a.dicts == b.dicts;
  }

  lemma TWriteCaptured(h: RHeap, d: Link, x: string, v: RValue)
    requires HasDict(h, d) && GoodHeap(h) && Good(v)
    ensures HasDict(THeap(h), d) && WriteCaptured(THeap(h), d, x, TV(v)) == THeap(WriteCaptured(h, d, x, v))
    ensures GoodHeap(WriteCaptured(h, d, x, v))
  {
    TShapes(h);
    var o := Owner(ShapesOf(h), d, x);
    TBindIn(h, if o.At? then o.id else d.id, x, v);
  }

  lemma TStoreSelf(h: RHeap, x: string, v: RValue)
    requires GoodHeap(h) && Good(v)
    ensures var h' := h.(self := h.self[x := v]);
      THeap(h') == THeap(h).(self := THeap(h).self[x := TV(v)]) && GoodHeap(h')
  {
    assert TB(h.self[x := v]) == TB(h.self)[x := TV(v)];
  }

  lemma TStoreSlot(s: RSlots, i: nat, v: RValue)
    requires GoodSlots(s) && Good(v)
    ensures TS(s[i := v]) == TS(s)[i := TV(v)] && GoodSlots(s[i := v])
  {
  }

  lemma TReadSlot(s: RSlots, i: nat)
    requires GoodSlots(s)
    ensures ReadSlot(TS(s), i) == TV(ReadSlot(s, i)) && Good(ReadSlot(s, i))
  {
  }

  lemma TReadSelf(h: RHeap, x: string)
    requires GoodHeap(h)
    ensures ReadSelf(THeap(h), x) == TV(ReadSelf(h, x)) && Good(ReadSelf(h, x))
  {
  }

  lemma TArgSlots(vs: seq<RValue>)
    requires GoodAll(vs)
    ensures TS(ArgSlots(vs)) == ArgSlots(TSeq(vs)) && GoodSlots(ArgSlots(vs))
  {
  }

  lemma TNewDict(h: RHeap, parent: Link)
    requires GoodHeap(h)
    ensures var h' := h.(dicts := h.dicts + [Dict(parent, map[])]);
      GoodHeap(h') && THeap(h') == THeap(h).(dicts := THeap(h).dicts + [Dict(parent, map[])])
  {
    var h' := h.(dicts := h.dicts + [Dict(parent, map[])]);
    assert TB(map[]) == map[];
    assert THeap(h').dicts == THeap(h).dicts + [Dict(parent, map[])];
  }

  // ----- Placement -----

  /** Code that stands at `p` of a module whose pool holds everything the code refers to. */
  predicate Placed(c: Coded, m: Module, p: nat) {
    c.ok && c.near && Extends(c.pool, Pool(m.consts, m.blocks)) && CodeAt(m.words, p, c.words)
  }

  lemma PlacedThen(a: Coded, b: Coded, m: Module, p: nat)
    requires Placed(Then(a, b), m, p) && Extends(a.pool, b.pool)
    ensures Placed(a, m, p) && Placed(b, m, p + |a.words|)
  {
    CodeAtParts(m.words, p, a.words, b.words);
  }

  lemma ThenLength(a: Coded, b: Coded)
    ensures |Then(a, b).words| == |a.words| + |b.words|
  {
  }

  lemma DecodeInstr(op: Op, arg: nat, q: Pool, m: Module, p: nat)
    requires Placed(Instr(op, arg, q), m, p) && op != Extend
    ensures p < |m.words| && Decode(m.words, p, 0) == Decoded(op, arg, p + |Wide(op, arg)|)
  {
    hide Decode, WideWith;
    DecodeWide(m.words, p, op, arg, Prefixes(arg));
  }

  lemma DecodeOne(op: Op, arg: byte, q: Pool, m: Module, p: nat)
    requires Placed(One(op, arg, q), m, p) && op != Extend
    ensures p < |m.words| && Decode(m.words, p, 0) == Decoded(op, arg, p + 1)
  {
    assert m.words[p..p + 1][0] == m.words[p];
  }

  lemma DecodeSym(op: Op, c: Const, q: Pool, m: Module, p: nat)
    requires Placed(Sym(op, c, q), m, p) && op != Extend
    ensures p < |m.words| && Decode(m.words, p, 0) == Decoded(op, Find(q.consts, c), p + |Sym(op, c, q).words|)
    ensures Find(q.consts, c) < |m.consts| && m.consts[Find(q.consts, c)] == c
  {
    hide Decode, Wide, Find;
    DecodeInstr(op, Find(q.consts, c), q.(consts := Interned(q.consts, c)), m, p);
  }

  lemma DecodeJump(op: Op, offset: nat, q: Pool, m: Module, p: nat)
    requires Placed(JumpOver(op, offset, q), m, p) && op != Extend
    ensures p < |m.words| && Decode(m.words, p, 0) == Decoded(op, offset, p + |Wide(op, offset)|)
  {
    hide Decode, WideWith;
    DecodeWide(m.words, p, op, offset, Prefixes(offset));
  }

  // ----- States and results -----

  /** What stays fixed while one frame runs. */
  datatype Site = Site(m: Module, dict: Link, below: Stack)

  function Here(s: Site, p: nat, slots: RSlots, stack: seq<MValue>, h: RHeap): Machine {
    Running(CodeFrame(s.m, p, TS(slots), stack, s.dict, s.below), THeap(h))
  }

  ghost predicate StopsAs(r: FResult, from: Machine)
    requires r.FStop?
  {
    Reaches(from, Halted(TWhy(r.why), THeap(r.heap)))
  }

  /** From `from` the engine does what `r` says: it goes on at `p` with the value on the stack,
      or it halts for the same reason. */
  ghost predicate Runs(r: FResult, from: Machine, s: Site, p: nat, stack: seq<MValue>) {
    match r
    case FVal(v, slots, h) =>
      Good(v) && GoodSlots(slots) && GoodHeap(h) && Reaches(from, Here(s, p, slots, stack + [TV(v)], h))
    case FVals(vs, slots, h) =>
      GoodAll(vs) && GoodSlots(slots) && GoodHeap(h) && Reaches(from, Here(s, p, slots, stack + TSeq(vs), h))
    case FStop(_, _) => StopsAs(r, from)
    case FTimeout => true
  }

  /** The same for a call: the answer is delivered to the frames below. */
  ghost predicate Answers(r: FResult, from: Machine, below: Stack) {
    match r
    case FVal(v, _, h) => Good(v) && GoodHeap(h) && Reaches(from, Deliver(TV(v), below, THeap(h)))
    case FVals(_, _, _) => false
    case FStop(_, _) => StopsAs(r, from)
    case FTimeout => true
  }

  lemma RunsFrom(r: FResult, a: Machine, b: Machine, s: Site, p: nat, stack: seq<MValue>)
    requires Reaches(a, b) && Runs(r, b, s, p, stack)
    ensures Runs(r, a, s, p, stack)
  {
    hide Reaches;
    match r
    case FVal(v, slots, h) => ReachesTrans(a, b, Here(s, p, slots, stack + [TV(v)], h));
    case FVals(vs, slots, h) => ReachesTrans(a, b, Here(s, p, slots, stack + TSeq(vs), h));
    case FStop(why, h) => ReachesTrans(a, b, Halted(TWhy(why), THeap(h)));
    case FTimeout =>
  }

  lemma AnswersFrom(r: FResult, a: Machine, b: Machine, below: Stack)
    requires Reaches(a, b) && Answers(r, b, below)
    ensures Answers(r, a, below)
  {
    hide Reaches;
    match r
    case FVal(v, _, h) => ReachesTrans(a, b, Deliver(TV(v), below, THeap(h)));
    case FStop(why, h) => ReachesTrans(a, b, Halted(TWhy(why), THeap(h)));
    case FTimeout =>
  }
}
