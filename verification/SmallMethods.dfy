/** Every method of up to 160 000 nodes compiles: no operand and no jump of it is too wide. */
module SmallMethods {
  import opened Syntax
  import opened Analysis
  import opened Resolve
  import opened Bytecode
  import opened Layout
  import opened Codegen
  import opened Lowering

  /** The nodes of code and the names it declares. */
  function Size(n: Node): (s: nat)
    ensures s >= 1
  {
    match n
    case Assignment(_, v) => 1 + Size(v)
    case Binary(_, l, r) => 1 + Size(l) + Size(r)
    case Send(_, r, a) => 1 + Size(r) + Sizes(a)
    case Block(ps, ts, body) => 1 + |ps + ts| + Sizes(body)
    case Return(v) => 1 + Size(v)
    case _ => 1
  }

  function Sizes(ns: Nodes): nat { if ns.NoNodes? then 0 else Size(ns.head) + Sizes(ns.tail) }

  function MethodSize(m: Method): nat { |m.params + m.temps| + Sizes(m.body) }

  const MOST_NODES := 160_000

  // ----- Words and constants of resolved code -----

  /** More than the words of an expression, and more than the constants and blocks it adds. */
  function Bulk(e: RExpr): nat
    decreases e, 0
  {
    40 + match e
      case StoreLocal(_, v) => Bulk(v)
      case StoreCaptured(_, v) => Bulk(v)
      case StoreInstVar(_, v) => Bulk(v)
      case Arith(_, l, r) => Bulk(l) + Bulk(r)
      case SendMsg(_, r, args) => Bulk(r) + BodyBulk(args)
      case MakeBlock(blk) => BlockBulk(blk)
      case ReturnFromHome(v) => Bulk(v)
      case Cond(_, _, t, b) => Bulk(t) + BodyBulk(b)
      case CondElse(_, t, a, b) => Bulk(t) + BodyBulk(a) + BodyBulk(b)
      case Loop(_, _, g, b) => BodyBulk(g) + BodyBulk(b)
      case CountLoop(_, _, s, t, b) => Bulk(s) + Bulk(t) + BodyBulk(b)
      case _ => 0
  }

  function BodyBulk(es: RExprs): (n: nat)
    ensures n >= 1
    decreases es, 0
  {
    if es.RNil? then 1 else Bulk(es.head) + 1 + BodyBulk(es.tail)
  }

  function BlockBulk(blk: RBlock): nat
    decreases blk, 1
  {
    10 + 10 * |blk.defines| + BodyBulk(blk.body)
  }

  predicate DefineFits(d: Define, k: nat) { d.fromSlot.FromSlot? ==> d.fromSlot.slot < k }

  predicate DefinesFit(ds: seq<Define>, k: nat) { forall i :: 0 <= i < |ds| ==> DefineFits(ds[i], k) }

  /** Every slot of the code is below `k`. */
  predicate Fits(e: RExpr, k: nat)
    decreases e, 0
  {
    match e
    case LoadLocal(s) => s < k
    case StoreLocal(s, v) => s < k && Fits(v, k)
    case StoreCaptured(_, v) => Fits(v, k)
    case StoreInstVar(_, v) => Fits(v, k)
    case Arith(_, l, r) => Fits(l, k) && Fits(r, k)
    case SendMsg(_, r, args) => Fits(r, k) && AllFit(args, k)
    case MakeBlock(blk) => DefinesFit(blk.defines, k) && AllFit(blk.body, k)
    case ReturnFromHome(v) => Fits(v, k)
    case Cond(_, _, t, b) => Fits(t, k) && AllFit(b, k)
    case CondElse(_, t, a, b) => Fits(t, k) && AllFit(a, k) && AllFit(b, k)
    case Loop(_, _, g, b) => AllFit(g, k) && AllFit(b, k)
    case CountLoop(i, j, s, t, b) => i < k && j < k && Fits(s, k) && Fits(t, k) && AllFit(b, k)
    case _ => true
  }

  predicate AllFit(es: RExprs, k: nat)
    decreases es, 0
  {
    es.RNil? || (Fits(es.head, k) && AllFit(es.tail, k))
  }

  // ----- Small code is accepted -----

  function Held(p: Pool): nat { |p.consts| + |p.blocks| }

  /** Accepted, of at most `n` words, with at most `n` more constants and blocks. */
  predicate Small(c: Coded, p: Pool, n: nat) { c.ok && c.near && |c.words| <= n && Held(c.pool) <= Held(p) + n }

  lemma ThenSmall(a: Coded, b: Coded, p: Pool, m: nat, n: nat)
    requires Small(a, p, m) && Small(b, a.pool, n)
    ensures Small(Then(a, b), p, m + n)
  {
  }

  lemma InstrSmall(op: Op, arg: nat, p: Pool)
    requires arg <= MAX_OPERAND
    ensures Small(Instr(op, arg, p), p, 3)
  {
  }

  lemma OneSmall(op: Op, arg: byte, p: Pool)
    ensures Small(One(op, arg, p), p, 1)
  {
  }

  lemma SymSmall(op: Op, c: Const, p: Pool)
    requires Held(p) <= MAX_OPERAND
    ensures Small(Sym(op, c, p), p, 3)
  {
    hide Wide, Find;
  }

  lemma LiteralSmall(n: int, p: Pool)
    requires Held(p) <= MAX_OPERAND
    ensures Small(Literal(n, p), p, 3)
  {
    hide Wide;
  }

  lemma JumpSmall(op: Op, offset: nat, p: Pool)
    requires offset <= MAX_OPERAND
    ensures Small(JumpOver(op, offset, p), p, 3)
  {
    hide Wide;
  }

  lemma LoopSmall(l: LoopParts, p: Pool, m: nat, n: nat, k: nat)
    requires Small(l.head, p, m) && Small(l.body, l.head.pool, n) && Small(l.tail, l.body.pool, k)
    requires m + n + k + 8 <= MAX_OPERAND
    ensures Small(LoopCode(l), p, m + n + k + 6)
  {
    OpenWords(l);
    var w, exit := Open(l).words, |l.head.words|;
    ClosedParts(w, 0, exit);
    hide Closed, Open, BackOperand, Wide, WideWith;
  }

  lemma ParameterSmall(d: Define, p: Pool)
    requires Held(p) <= MAX_OPERAND && DefineFits(d, MAX_OPERAND)
    ensures Small(DefineCode(d, p), p, 6)
  {
    var sym := Sym(DefineCaptured, NameConst(d.name), p);
    SymSmall(DefineCaptured, NameConst(d.name), p);
    hide Sym, Wide;
    assert Small(SourceCode(d, sym.pool), sym.pool, 3);
  }

  lemma {:induction false} DefinesSmall(ds: seq<Define>, p: Pool)
    requires DefinesFit(ds, MAX_OPERAND) && Held(p) + 10 * |ds| <= MAX_OPERAND
    ensures Small(DefinesCode(ds, p), p, 6 * |ds|)
  {
    if ds != [] {
      ParameterSmall(ds[0], p);
      hide DefineCode, DefineFits;
      var a := DefineCode(ds[0], p);
      DefinesSmall(ds[1..], a.pool);
      ThenSmall(a, DefinesCode(ds[1..], a.pool), p, 6, 6 * |ds[1..]|);
    }
  }

  lemma PrologueSmall(ds: seq<Define>, isMethod: bool)
    requires DefinesFit(ds, MAX_OPERAND) && 10 * |ds| <= MAX_OPERAND
    ensures Small(Prologue(ds, isMethod, Pool([], [])), Pool([], []), 1 + 6 * |ds|)
  {
    DefinesSmall(ds, Pool([], []));
    hide DefinesCode;
  }

  predicate Room(p: Pool, n: nat) { Held(p) + n + 16 <= MAX_OPERAND }

  lemma {:induction false} CodeSmall(e: RExpr, p: Pool)
    requires Fits(e, MAX_OPERAND) && Room(p, Bulk(e))
    ensures Small(Code(e, p), p, Bulk(e))
    decreases e, 1
  {
    if e.Cond? || e.CondElse? {
      CondSmall(e, p);
    } else if e.Loop? {
      WhileSmall(e, p);
    } else if e.CountLoop? {
      CountSmall(e, p);
    } else if e.StoreLocal? || e.StoreCaptured? || e.StoreInstVar? || e.ReturnFromHome? {
      StoreSmall(e, p);
    } else if e.Arith? || e.SendMsg? || e.MakeBlock? {
      SendSmall(e, p);
    } else {
      LeafSmall(e, p);
    }
  }

  predicate Leaf(e: RExpr) {
    e.PushInt? || e.PushBool? || e.PushNil? || e.PushSelf? || e.LoadLocal? || e.LoadCaptured? || e.LoadInstVar?
  }

  lemma LeafSmall(e: RExpr, p: Pool)
    requires Fits(e, MAX_OPERAND) && Room(p, Bulk(e)) && Leaf(e)
    ensures Small(Code(e, p), p, Bulk(e))
  {
    if e.PushInt? { LiteralSmall(e.n, p); }
    if e.LoadLocal? { InstrSmall(PushLocal, e.slot, p); }
    if e.LoadCaptured? { SymSmall(PushCaptured, NameConst(e.name), p); }
    if e.LoadInstVar? { SymSmall(PushInstVar, NameConst(e.name), p); }
    hide Literal, Instr, Sym;
  }

  lemma {:induction false} StoreSmall(e: RExpr, p: Pool)
    requires Fits(e, MAX_OPERAND) && Room(p, Bulk(e)) && (e.StoreLocal? || e.StoreCaptured? || e.StoreInstVar? || e.ReturnFromHome?)
    ensures Small(Code(e, p), p, Bulk(e))
    decreases e, 0
  {
    CodeSmall(e.value, p);
    var v := Code(e.value, p);
    if e.ReturnFromHome? {
      assert Code(e, p) == Then(v, One(Op.Return, 0, v.pool));
    } else {
      var store := if e.StoreLocal? then Instr(Op.StoreLocal, e.slot, v.pool)
                   else if e.StoreCaptured? then Sym(Op.StoreCaptured, NameConst(e.name), v.pool)
                   else Sym(Op.StoreInstVar, NameConst(e.name), v.pool);
      if e.StoreLocal? { InstrSmall(Op.StoreLocal, e.slot, v.pool); }
      if e.StoreCaptured? { SymSmall(Op.StoreCaptured, NameConst(e.name), v.pool); }
      if e.StoreInstVar? { SymSmall(Op.StoreInstVar, NameConst(e.name), v.pool); }
      assert Code(e, p) == Then(v, Then(One(Dup, 0, v.pool), store));
    }
    hide Code, Instr, Sym;
  }

  lemma {:induction false} SendSmall(e: RExpr, p: Pool)
    requires Fits(e, MAX_OPERAND) && Room(p, Bulk(e)) && (e.Arith? || e.SendMsg? || e.MakeBlock?)
    ensures Small(Code(e, p), p, Bulk(e))
    decreases e, 0
  {
    if e.Arith? {
      CodeSmall(e.left, p);
      var a := Code(e.left, p);
      CodeSmall(e.right, a.pool);
      var b := Code(e.right, a.pool);
      SymSmall(BinInt(e.op), OperatorConst(e.op), b.pool);
      assert Code(e, p) == Then(a, Then(b, Sym(BinInt(e.op), OperatorConst(e.op), b.pool)));
      hide Code, Sym;
    } else if e.SendMsg? {
      CodeSmall(e.recv, p);
      var a := Code(e.recv, p);
      ArgsSmall(e.args, a.pool);
      var b := ArgsCode(e.args, a.pool);
      SymSmall(SendOp(e.sel), SelectorConst(e.sel), b.pool);
      assert Code(e, p) == Then(a, Then(b, Sym(SendOp(e.sel), SelectorConst(e.sel), b.pool)));
      hide Code, Sym, ArgsCode;
    } else {
      BlockSmall(e.blk, false);
      var c := BlockCode(e.blk, false);
      assert Code(e, p) == PushClosure(c, e.blk.argCount, p);
      hide Code, BlockCode;
      PushClosureSmall(c, e.blk.argCount, p);
    }
  }

  lemma PushClosureSmall(c: Coded, argCount: nat, p: Pool)
    requires c.ok && c.near && |p.blocks| <= MAX_OPERAND
    ensures Small(PushClosure(c, argCount, p), p, 4)
  {
    hide Wide;
  }

  lemma {:induction false} ArgsSmall(es: RExprs, p: Pool)
    requires AllFit(es, MAX_OPERAND) && Room(p, BodyBulk(es))
    ensures Small(ArgsCode(es, p), p, BodyBulk(es))
    decreases es, 0
  {
    if es.RCons? {
      CodeSmall(es.head, p);
      ArgsSmall(es.tail, Code(es.head, p).pool);
      hide Code;
    }
  }

  lemma {:induction false} BodySmall(es: RExprs, p: Pool)
    requires AllFit(es, MAX_OPERAND) && Room(p, BodyBulk(es))
    ensures Small(BodyCode(es, p), p, BodyBulk(es))
    decreases es, 0
  {
    if es.RCons? {
      CodeSmall(es.head, p);
      var a := Code(es.head, p);
      if es.tail.RCons? {
        BodySmall(es.tail, a.pool);
        assert BodyCode(es, p) == Then(a, Then(One(Pop, 0, a.pool), BodyCode(es.tail, a.pool)));
      } else {
        assert BodyCode(es, p) == a;
      }
      hide Code, BodyCode;
    }
  }

  lemma {:induction false} BlockSmall(blk: RBlock, isMethod: bool)
    requires DefinesFit(blk.defines, MAX_OPERAND) && AllFit(blk.body, MAX_OPERAND) && BlockBulk(blk) + 16 <= MAX_OPERAND
    ensures Compiles(blk, isMethod)
    decreases blk, 2
  {
    PrologueSmall(blk.defines, isMethod);
    var d := Prologue(blk.defines, isMethod, Pool([], []));
    BodySmall(blk.body, d.pool);
    hide Prologue, BodyCode, AllFit, DefinesFit;
  }

  lemma {:induction false} CondSmall(e: RExpr, p: Pool)
    requires Fits(e, MAX_OPERAND) && Room(p, Bulk(e)) && (e.Cond? || e.CondElse?)
    ensures Small(Code(e, p), p, Bulk(e))
    decreases e, 0
  {
    IsJoined(e, p);
    PartsAre(e, p);
    PiecesOfCond(e, MAX_OPERAND);
    hide Code, Parts, Fits, AllFit, Sym, JumpOver, BodyCode, Bulk, BodyBulk, Joined, Small;
    var b := Parts(e, p);
    CodeSmall(e.test, p);
    GuardRoom(b, e.sel, p, Bulk(e.test));
    if e.Cond? {
      BodySmall(e.body, b.guard.pool);
      OneSmall(PushNilOp, 0, b.first.pool);
      hide One;
      BranchesSmall(b, if e.onTrue then JumpIfFalse else JumpIfTrue, p, Bulk(e.test), BodyBulk(e.body), 1);
    } else {
      BodySmall(e.thn, b.guard.pool);
      FirstRoom(b, p, Bulk(e.test), BodyBulk(e.thn));
      BodySmall(e.els, b.first.pool);
      BranchesSmall(b, JumpIfFalse, p, Bulk(e.test), BodyBulk(e.thn), BodyBulk(e.els));
    }
    SmallUpTo(Code(e, p), p, Bulk(e));
  }

  lemma SmallUpTo(c: Coded, p: Pool, n: nat)
    requires exists k: nat :: k <= n && Small(c, p, k)
    ensures Small(c, p, n)
  {
  }

  lemma GuardRoom(b: Branches, sel: Selector, p: Pool, m: nat)
    requires Small(b.test, p, m) && b.guard == Sym(AssertBoolOrDnu, SelectorConst(sel), b.test.pool) && Held(p) + m <= MAX_OPERAND
    ensures Small(b.guard, b.test.pool, 3) && Held(b.guard.pool) <= Held(p) + m + 3
  {
    SymSmall(AssertBoolOrDnu, SelectorConst(sel), b.test.pool);
    hide Sym;
  }

  lemma FirstRoom(b: Branches, p: Pool, m: nat, n: nat)
    requires Held(b.guard.pool) <= Held(p) + m + 3 && Small(b.first, b.guard.pool, n)
    ensures Held(b.first.pool) <= Held(p) + m + n + 3
  {
  }

  lemma PiecesOfCond(e: RExpr, k: nat)
    requires (e.Cond? || e.CondElse?) && Fits(e, k)
    ensures Fits(e.test, k)
    ensures e.Cond? ==> AllFit(e.body, k) && Bulk(e) == 40 + Bulk(e.test) + BodyBulk(e.body)
    ensures e.CondElse? ==> AllFit(e.thn, k) && AllFit(e.els, k) && Bulk(e) == 40 + Bulk(e.test) + BodyBulk(e.thn) + BodyBulk(e.els)
  {
  }

  lemma BranchesSmall(b: Branches, unless: Op, p: Pool, m: nat, n: nat, k: nat)
    requires Small(b.test, p, m) && Small(b.guard, b.test.pool, 3) && Small(b.first, b.guard.pool, n) && Small(b.second, b.first.pool, k)
    requires b.jump == JumpOver(unless, |b.first.words| + |b.skip.words|, b.guard.pool)
    requires b.skip == JumpOver(Jump, |b.second.words|, b.first.pool) && n + k + 3 <= MAX_OPERAND
    ensures Small(Joined(b), p, m + n + k + 9)
  {
    JumpSmall(Jump, |b.second.words|, b.first.pool);
    JumpSmall(unless, |b.first.words| + |b.skip.words|, b.guard.pool);
    hide JumpOver;
    JoinedSmall(b, p, m, n, k);
  }

  lemma JoinedSmall(b: Branches, p: Pool, m: nat, n: nat, k: nat)
    requires Small(b.test, p, m) && Small(b.guard, b.test.pool, 3) && Small(b.jump, b.guard.pool, 3) && b.jump.pool == b.guard.pool
    requires Small(b.first, b.guard.pool, n) && Small(b.skip, b.first.pool, 3) && b.skip.pool == b.first.pool
    requires Small(b.second, b.first.pool, k)
    ensures Small(Joined(b), p, m + n + k + 9)
  {
  }

  lemma {:induction false} WhileSmall(e: RExpr, p: Pool)
    requires Fits(e, MAX_OPERAND) && Room(p, Bulk(e)) && e.Loop?
    ensures Small(Code(e, p), p, Bulk(e))
    decreases e, 0
  {
    WhileIs(e, p);
    hide Code, WhileParts, Fits, AllFit;
    var l := WhileParts(e, p);
    FitsLoop(e, MAX_OPERAND);
    var q := p.(consts := Interned(p.consts, SelectorConst(e.sel)));
    OneMore(p, SelectorConst(e.sel));
    BulkOfLoop(e);
    hide Bulk, BodyBulk, Interned;
    BodySmall(e.guard, q);
    GuardSmall(BodyCode(e.guard, q), SelectorConst(e.sel), p, q, BodyBulk(e.guard));
    BodySmall(e.body, l.head.pool);
    hide BodyCode, Instr;
    LoopSmall(l, p, BodyBulk(e.guard) + 4, BodyBulk(e.body), 1);
    hide LoopCode;
  }

  lemma OneMore(p: Pool, c: Const)
    ensures Held(p.(consts := Interned(p.consts, c))) <= Held(p) + 1 && Find(p.consts, c) <= Held(p)
  {
    hide Find;
  }

  lemma GuardSmall(g: Coded, c: Const, p: Pool, q: Pool, n: nat)
    requires Small(g, q, n) && Held(q) <= Held(p) + 1 && Find(p.consts, c) <= Held(p) <= MAX_OPERAND
    ensures Small(Then(g, Instr(AssertBoolOrDnu, Find(p.consts, c), g.pool)), p, n + 4)
  {
    hide Find;
    InstrSmall(AssertBoolOrDnu, Find(p.consts, c), g.pool);
    hide Instr;
  }

  lemma FitsLoop(e: RExpr, k: nat)
    requires e.Loop? && Fits(e, k)
    ensures AllFit(e.guard, k) && AllFit(e.body, k)
  {
  }

  lemma BulkOfLoop(e: RExpr)
    requires e.Loop?
    ensures Bulk(e) == 40 + BodyBulk(e.guard) + BodyBulk(e.body)
  {
  }

  lemma {:induction false} CountSmall(e: RExpr, p: Pool)
    requires Fits(e, MAX_OPERAND) && Room(p, Bulk(e)) && e.CountLoop?
    ensures Small(Code(e, p), p, Bulk(e))
    decreases e, 0
  {
    SetupIs(e, p);
    CodeSmall(e.start, p);
    var u := Code(e.start, p);
    CodeSmall(e.stop, u.pool);
    var a := Setup(e, p);
    hide Code, Setup, Fits, AllFit;
    SetupSmall(e, u, Code(e.stop, u.pool), p);
    CountIs(e, a.pool);
    var l := CountParts(e, a.pool);
    HeadSmall(e, a.pool);
    hide HeadCode, CountParts;
    assert AllFit(e.body, MAX_OPERAND) by { FitsBody(e, MAX_OPERAND); }
    BodySmall(e.body, l.head.pool);
    hide BodyCode;
    TailSmall(e.slotI, l.body.pool);
    hide Increment;
    LoopSmall(l, a.pool, 9, BodyBulk(e.body), 13);
    hide LoopCode, Bulk;
    ThenSmall(a, LoopCode(l), p, Bulk(e.start) + Bulk(e.stop) + 7, 9 + BodyBulk(e.body) + 13 + 6);
    BulkOfCount(e);
  }

  lemma FitsBody(e: RExpr, k: nat)
    requires e.CountLoop? && Fits(e, k)
    ensures AllFit(e.body, k)
  {
  }

  lemma BulkOfCount(e: RExpr)
    requires e.CountLoop?
    ensures Bulk(e) == 40 + Bulk(e.start) + Bulk(e.stop) + BodyBulk(e.body)
  {
  }

  lemma SetupSmall(e: RExpr, u: Coded, t: Coded, p: Pool)
    requires e.CountLoop? && e.slotI < MAX_OPERAND && e.slotEnd < MAX_OPERAND
    requires Small(u, p, Bulk(e.start)) && Small(t, u.pool, Bulk(e.stop))
    ensures Small(Then(u, Then(One(Dup, 0, u.pool), Then(Instr(Op.StoreLocal, e.slotI, u.pool), Then(t, Instr(Op.StoreLocal, e.slotEnd, t.pool))))),
                  p, Bulk(e.start) + Bulk(e.stop) + 7)
  {
    hide Wide, Bulk;
  }

  lemma HeadSmall(e: RExpr, p: Pool)
    requires e.CountLoop? && e.slotI < MAX_OPERAND && e.slotEnd < MAX_OPERAND && Held(p) <= MAX_OPERAND
    ensures Small(HeadCode(e, p), p, 9)
  {
    SymSmall(BinInt(Le), OperatorConst(Le), p);
    hide Sym, Wide;
  }

  lemma TailSmall(slot: nat, p: Pool)
    requires slot < MAX_OPERAND && Held(p) < MAX_OPERAND
    ensures Small(Then(One(Pop, 0, p), Increment(slot, p)), p, 13)
  {
    IncrementSmall(slot, p);
    hide Increment;
  }

  lemma IncrementSmall(slot: nat, p: Pool)
    requires slot < MAX_OPERAND && Held(p) < MAX_OPERAND
    ensures Small(Increment(slot, p), p, 12)
  {
    var q := p.(consts := p.consts + [IntConst(1)]);
    SymSmall(BinInt(Add), OperatorConst(Add), q);
    hide Sym, Wide;
  }

  // ----- Resolved code is small when its source is -----

  predicate SlotsFit(slots: map<string, nat>, k: nat) { forall x | x in slots :: slots[x] < k }

  predicate ScopesFit(sc: Scopes, k: nat) { sc.NoScope? || (SlotsFit(sc.inner.slots, k) && ScopesFit(sc.outer, k)) }

  /** What a node resolves to, where `r.1` is the next free slot. */
  predicate Keeps(r: (RExpr, nat), size: nat, next: nat, k: nat) {
    Fits(r.0, k) && Bulk(r.0) + 10 <= 100 * size && r.1 <= next + 2 * size
  }

  predicate AllKeep(r: (RExprs, nat), size: nat, next: nat, k: nat) {
    AllFit(r.0, k) && BodyBulk(r.0) <= 100 * size + 1 && r.1 <= next + 2 * size
  }

  lemma {:induction false} LocalFits(sc: Scopes, x: string, k: nat)
    requires ScopesFit(sc, k)
    ensures ResolveLocal(sc, x).InSlot? ==> ResolveLocal(sc, x).slot < k
  {
    if sc.Within? && x !in sc.inner.slots { LocalFits(sc.outer, x, k); }
  }

  lemma PlaceFits(sc: Scopes, iv: set<string>, x: string, k: nat)
    requires ScopesFit(sc, k)
    ensures Where(sc, iv, x).InSlot? ==> Where(sc, iv, x).slot < k
  {
    LocalFits(sc, x, k);
    hide IsCaptured, ResolveLocal, ScopesFit;
  }

  lemma NumberFits(names: seq<string>, base: nat, k: nat)
    requires base + |names| <= k
    ensures SlotsFit(Number(names, base), k)
  {
    forall x | x in Number(names, base) ensures Number(names, base)[x] < k { assert IndexOf(names, x) < |names|; }
  }

  lemma {:induction false} DefinesAreFew(names: seq<string>, argCount: nat, first: nat, captured: set<string>, i: nat, k: nat)
    requires i <= |names| && first + |names| <= k
    ensures |Defines(names, argCount, first, captured, i)| <= |names| - i
    ensures DefinesFit(Defines(names, argCount, first, captured, i), k)
    decreases |names| - i
  {
    if i < |names| { DefinesAreFew(names, argCount, first, captured, i + 1, k); }
  }

  lemma {:induction false} ResolvedFits(n: Node, sc: Scopes, iv: set<string>, next: nat, k: nat)
    requires sc.Within? && ScopesFit(sc, k) && next + 2 * Size(n) <= k
    ensures Keeps(Resolved(n, sc, iv, next), Size(n), next, k)
    decreases n, 2
  {
    hide Where, Inlined, ScopesFit, Fits, Bulk;
    if n.Assignment? {
      ResolvedFits(n.value, sc, iv, next, k);
      StoreFits(n, sc, iv, next, k);
    } else if n.Binary? {
      ResolvedFits(n.left, sc, iv, next, k);
      ResolvedFits(n.right, sc, iv, Resolved(n.left, sc, iv, next).1, k);
      ArithFits(n, sc, iv, next, k);
    } else if n.Send? {
      if Inlined(n, iv) {
        InlinedFits(n, sc, iv, next, k);
        assert Resolved(n, sc, iv, next) == ResolveInlined(n, sc, iv, next);
      } else {
        var n1 := Resolved(n.recv, sc, iv, next).1;
        ResolvedFits(n.recv, sc, iv, next, k);
        AllResolvedFit(n.args, sc, iv, n1, k);
        SendFits(n, sc, iv, next, k);
      }
    } else if n.Block? {
      BlockFits(n, sc, iv, k);
      ClosureFits(n, sc, iv, next, k);
    } else if n.Return? {
      ResolvedFits(n.value, sc, iv, next, k);
      ReturnFits(n, sc, iv, next, k);
    } else {
      LeafFits(n, sc, iv, next, k);
    }
  }

  lemma LeafFits(n: Node, sc: Scopes, iv: set<string>, next: nat, k: nat)
    requires sc.Within? && ScopesFit(sc, k)
    requires !n.Assignment? && !n.Binary? && !n.Send? && !n.Block? && !n.Return?
    ensures Keeps(Resolved(n, sc, iv, next), Size(n), next, k)
  {
    if n.Ident? { PlaceFits(sc, iv, n.name, k); }
    hide Where, ScopesFit;
  }

  lemma StoreFits(n: Node, sc: Scopes, iv: set<string>, next: nat, k: nat)
    requires sc.Within? && ScopesFit(sc, k) && n.Assignment? && Keeps(Resolved(n.value, sc, iv, next), Size(n.value), next, k)
    ensures Keeps(Resolved(n, sc, iv, next), Size(n), next, k)
  {
    PlaceFits(sc, iv, n.name, k);
    hide Where, ScopesFit;
    var w := Where(sc, iv, n.name);
    var value := Resolved(n.value, sc, iv, next);
    assert Resolved(n, sc, iv, next) ==
      (if w.InDict? then (RExpr.StoreCaptured(n.name, value.0), value.1) else if w.InSlot? then (RExpr.StoreLocal(w.slot, value.0), value.1)
       else if w.InSelf? then (RExpr.StoreInstVar(n.name, value.0), value.1) else (PushNil, next));
    hide Resolved;
  }

  lemma ArithFits(n: Node, sc: Scopes, iv: set<string>, next: nat, k: nat)
    requires sc.Within? && n.Binary?
    requires var l := Resolved(n.left, sc, iv, next);
      Keeps(l, Size(n.left), next, k) && Keeps(Resolved(n.right, sc, iv, l.1), Size(n.right), l.1, k)
    ensures Keeps(Resolved(n, sc, iv, next), Size(n), next, k)
  {
    var l := Resolved(n.left, sc, iv, next);
    var r := Resolved(n.right, sc, iv, l.1);
    assert Resolved(n, sc, iv, next) == (Arith(n.op, l.0, r.0), r.1);
    hide Resolved;
  }

  lemma SendFits(n: Node, sc: Scopes, iv: set<string>, next: nat, k: nat)
    requires sc.Within? && n.Send? && !Inlined(n, iv)
    requires var r := Resolved(n.recv, sc, iv, next);
      Keeps(r, Size(n.recv), next, k) && AllKeep(ResolveAll(n.args, sc, iv, r.1), Sizes(n.args), r.1, k)
    ensures Keeps(Resolved(n, sc, iv, next), Size(n), next, k)
  {
    hide Inlined;
    var r := Resolved(n.recv, sc, iv, next);
    var a := ResolveAll(n.args, sc, iv, r.1);
    assert Resolved(n, sc, iv, next) == (SendMsg(n.sel, r.0, a.0), a.1);
    hide Resolved, ResolveAll;
  }

  lemma ReturnFits(n: Node, sc: Scopes, iv: set<string>, next: nat, k: nat)
    requires sc.Within? && n.Return? && Keeps(Resolved(n.value, sc, iv, next), Size(n.value), next, k)
    ensures Keeps(Resolved(n, sc, iv, next), Size(n), next, k)
  {
    var v := Resolved(n.value, sc, iv, next);
    assert Resolved(n, sc, iv, next) == (ReturnFromHome(v.0), v.1);
    hide Resolved;
  }

  lemma ClosureFits(n: Node, sc: Scopes, iv: set<string>, next: nat, k: nat)
    requires sc.Within? && n.Block?
    requires var blk := ResolveBlock(n, sc, iv);
      DefinesFit(blk.defines, k) && AllFit(blk.body, k) && BlockBulk(blk) + 50 <= 100 * Size(n)
    ensures Keeps(Resolved(n, sc, iv, next), Size(n), next, k)
  {
    hide ResolveBlock;
    assert Resolved(n, sc, iv, next) == (MakeBlock(ResolveBlock(n, sc, iv)), next);
    hide Resolved;
  }

  lemma {:induction false} AllResolvedFit(ns: Nodes, sc: Scopes, iv: set<string>, next: nat, k: nat)
    requires sc.Within? && ScopesFit(sc, k) && next + 2 * Sizes(ns) <= k
    ensures AllKeep(ResolveAll(ns, sc, iv, next), Sizes(ns), next, k)
    decreases ns, 0
  {
    if ns.More? {
      ResolvedFits(ns.head, sc, iv, next, k);
      hide Resolved, ScopesFit, Fits, Bulk;
      AllResolvedFit(ns.tail, sc, iv, Resolved(ns.head, sc, iv, next).1, k);
    }
  }

  lemma {:induction false} BlockFits(b: Node, sc: Scopes, iv: set<string>, k: nat)
    requires b.Block? && ScopesFit(sc, k) && 2 * Size(b) <= k
    ensures var blk := ResolveBlock(b, sc, iv);
      DefinesFit(blk.defines, k) && AllFit(blk.body, k) && BlockBulk(blk) + 50 <= 100 * Size(b)
    decreases b, 1
  {
    hide Elems;
    var names := Declared(b);
    NumberFits(names, 0, k);
    DefinesAreFew(names, |b.params|, 0, Captured(b, iv), 0, k);
    AllResolvedFit(b.body, Within(BlockScope(b, iv), sc), iv - Elems(names), |names|, k);
    hide Captured, Number, Defines, ResolveAll, AllFit, DefinesFit;
  }

  lemma {:induction false} InlinedFits(n: Node, sc: Scopes, iv: set<string>, next: nat, k: nat)
    requires sc.Within? && Inlined(n, iv) && ScopesFit(sc, k) && next + 2 * Size(n) <= k
    ensures Keeps(ResolveInlined(n, sc, iv, next), Size(n), next, k)
    decreases n, 1
  {
    var shape := InlineShapeOf(n);
    assert shape != NotInlined;
    if shape == InlineIf {
      IfFits(n, sc, iv, next, k);
    } else if shape == InlineIfElse {
      IfElseFits(n, sc, iv, next, k);
    } else if shape == InlineWhile {
      WhileFits(n, sc, iv, next, k);
    } else {
      ToDoFits(n, sc, iv, next, k);
    }
  }

  lemma ArgSizes(ns: Nodes)
    requires ns.More?
    ensures ns.tail.NoNodes? ==> Sizes(ns) == Size(ns.head)
    ensures ns.tail.More? && ns.tail.tail.NoNodes? ==> Sizes(ns) == Size(ns.head) + Size(ns.tail.head)
    ensures ns.head.Block? ==> Size(ns.head) == 1 + |ns.head.params + ns.head.temps| + Sizes(ns.head.body)
  {
    if ns.tail.More? { assert Sizes(ns.tail) == Size(ns.tail.head) + Sizes(ns.tail.tail); }
  }

  lemma {:induction false} IfFits(n: Node, sc: Scopes, iv: set<string>, next: nat, k: nat)
    requires sc.Within? && Inlined(n, iv) && InlineShapeOf(n) == InlineIf && ScopesFit(sc, k) && next + 2 * Size(n) <= k
    ensures Keeps(ResolveInlined(n, sc, iv, next), Size(n), next, k)
    decreases n, 0
  {
    hide Inlined, ScopesFit, Fits, AllFit, Resolved, ResolveAll;
    var b := n.args.head;
    ArgSizes(n.args);
    ResolvedFits(n.recv, sc, iv, next, k);
    var test := Resolved(n.recv, sc, iv, next);
    AllResolvedFit(b.body, sc, iv, test.1, k);
    var body := ResolveAll(b.body, sc, iv, test.1);
    assert ResolveInlined(n, sc, iv, next) == (Cond(n.sel, n.sel == IfTrue, test.0, body.0), body.1);
    hide ResolveInlined;
    CondFits(n.sel, n.sel == IfTrue, test.0, body.0, k);
  }

  lemma CondFits(sel: Selector, onTrue: bool, test: RExpr, body: RExprs, k: nat)
    requires Fits(test, k) && AllFit(body, k)
    ensures var e := Cond(sel, onTrue, test, body); Fits(e, k) && Bulk(e) == 40 + Bulk(test) + BodyBulk(body)
  {
  }

  lemma {:induction false} IfElseFits(n: Node, sc: Scopes, iv: set<string>, next: nat, k: nat)
    requires sc.Within? && Inlined(n, iv) && InlineShapeOf(n) == InlineIfElse && ScopesFit(sc, k) && next + 2 * Size(n) <= k
    ensures Keeps(ResolveInlined(n, sc, iv, next), Size(n), next, k)
    decreases n, 0
  {
    hide Inlined, ScopesFit, Fits, AllFit, Resolved, ResolveAll;
    var b, c := n.args.head, n.args.tail.head;
    var t, f := if n.sel == IfFalseIfTrue then c else b, if n.sel == IfFalseIfTrue then b else c;
    ArgSizes(n.args);
    assert Size(n) == 1 + Size(n.recv) + (Size(t) + Size(f)) && Size(t) == 1 + Sizes(t.body) && Size(f) == 1 + Sizes(f.body);
    ResolvedFits(n.recv, sc, iv, next, k);
    var test := Resolved(n.recv, sc, iv, next);
    AllResolvedFit(t.body, sc, iv, test.1, k);
    var thn := ResolveAll(t.body, sc, iv, test.1);
    AllResolvedFit(f.body, sc, iv, thn.1, k);
    var els := ResolveAll(f.body, sc, iv, thn.1);
    assert ResolveInlined(n, sc, iv, next) == (CondElse(n.sel, test.0, thn.0, els.0), els.1);
    hide ResolveInlined;
    CondElseFits(n.sel, test.0, thn.0, els.0, k);
  }

  lemma CondElseFits(sel: Selector, test: RExpr, thn: RExprs, els: RExprs, k: nat)
    requires Fits(test, k) && AllFit(thn, k) && AllFit(els, k)
    ensures var e := CondElse(sel, test, thn, els); Fits(e, k) && Bulk(e) == 40 + Bulk(test) + BodyBulk(thn) + BodyBulk(els)
  {
  }

  lemma {:induction false} WhileFits(n: Node, sc: Scopes, iv: set<string>, next: nat, k: nat)
    requires sc.Within? && Inlined(n, iv) && InlineShapeOf(n) == InlineWhile && ScopesFit(sc, k) && next + 2 * Size(n) <= k
    ensures Keeps(ResolveInlined(n, sc, iv, next), Size(n), next, k)
    decreases n, 0
  {
    hide Inlined, ScopesFit, Fits, AllFit, Resolved, ResolveAll;
    var b := n.args.head;
    ArgSizes(n.args);
    assert Size(n.recv) == 1 + Sizes(n.recv.body) && Size(b) == 1 + Sizes(b.body) && Size(n) == 1 + Size(n.recv) + Size(b);
    AllResolvedFit(n.recv.body, sc, iv, next, k);
    var guard := ResolveAll(n.recv.body, sc, iv, next);
    AllResolvedFit(b.body, sc, iv, guard.1, k);
    var body := ResolveAll(b.body, sc, iv, guard.1);
    assert ResolveInlined(n, sc, iv, next) == (Loop(n.sel, n.sel == WhileTrue, guard.0, body.0), body.1);
    hide ResolveInlined;
    WhileLoopFits(n.sel, n.sel == WhileTrue, guard.0, body.0, k);
  }

  lemma WhileLoopFits(sel: Selector, onTrue: bool, guard: RExprs, body: RExprs, k: nat)
    requires AllFit(guard, k) && AllFit(body, k)
    ensures var e := Loop(sel, onTrue, guard, body); Fits(e, k) && Bulk(e) == 40 + BodyBulk(guard) + BodyBulk(body)
  {
  }

  lemma {:induction false} ToDoFits(n: Node, sc: Scopes, iv: set<string>, next: nat, k: nat)
    requires sc.Within? && Inlined(n, iv) && InlineShapeOf(n) == InlineToDo && ScopesFit(sc, k) && next + 2 * Size(n) <= k
    ensures Keeps(ResolveInlined(n, sc, iv, next), Size(n), next, k)
    decreases n, 0
  {
    var b := ToDoBody(n);
    var x := b.params[0];
    ArgSizes(n.args);
    assert Size(b) == 2 + Sizes(b.body) && Size(n) == 1 + Size(n.recv) + (Size(n.args.head) + Size(b));
    var inside := LoopScope(sc, x, next);
    assert inside.Within? && ScopesFit(inside, k);
    hide Inlined, ScopesFit, Fits, AllFit, Resolved, ResolveAll, LoopScope;
    ResolvedFits(n.recv, sc, iv, next + 2, k);
    var start := Resolved(n.recv, sc, iv, next + 2);
    ResolvedFits(n.args.head, sc, iv, start.1, k);
    var stop := Resolved(n.args.head, sc, iv, start.1);
    AllResolvedFit(b.body, inside, iv - {x}, stop.1, k);
    var body := ResolveAll(b.body, inside, iv - {x}, stop.1);
    assert ResolveInlined(n, sc, iv, next) == (CountLoop(next, next + 1, start.0, stop.0, body.0), body.1);
    hide ResolveInlined;
    CountLoopFits(next, start.0, stop.0, body.0, k);
  }

  lemma CountLoopFits(slot: nat, start: RExpr, stop: RExpr, body: RExprs, k: nat)
    requires Fits(start, k) && Fits(stop, k) && AllFit(body, k) && slot + 1 < k
    ensures var e := CountLoop(slot, slot + 1, start, stop, body); Fits(e, k) && Bulk(e) == 40 + Bulk(start) + Bulk(stop) + BodyBulk(body)
  {
  }

  /** No operand and no jump of a method of this size is too wide. */
  lemma SmallMethodsCompile(m: Method, ivars: set<string>)
    requires MethodSize(m) <= MOST_NODES
    ensures Compiles(ResolveMethod(m, ivars), true)
  {
    hide Elems;
    var names, k := m.params + m.temps, MAX_OPERAND;
    NumberFits(names, 1, k);
    DefinesAreFew(names, |m.params|, 1, MethodCaptured(m, ivars), 0, k);
    AllResolvedFit(m.body, Within(MethodScope(m, ivars), NoScope), ivars - Elems(names), 1 + |names|, k);
    hide MethodCaptured, Number, Defines, ResolveAll, AllFit, DefinesFit, Compiles;
    BlockSmall(ResolveMethod(m, ivars), true);
  }
}
