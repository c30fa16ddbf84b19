/** The one limit the emitter does not check: a forward jump over more than 24 bits can say. */
module LongJumps {
  import opened Syntax
  import opened Analysis
  import opened Resolve
  import opened Bytecode
  import opened Layout
  import opened Codegen

  /** true. true. ... true */
  function Trues(n: nat): Nodes { if n == 0 then NoNodes else More(BoolLit(true), Trues(n - 1)) }
  function ResolvedTrues(n: nat): RExprs { if n == 0 then RNil else RCons(PushBool(true), ResolvedTrues(n - 1)) }

  /** false ifTrue: [true. true. ... true] */
  function LongSend(n: nat): Node { Send(IfTrue, BoolLit(false), More(Block([], [], Trues(n)), NoNodes)) }
  function LongMethod(n: nat): Method { Method([], [], More(LongSend(n), NoNodes)) }

  lemma {:induction false} TruesWellFormed(n: nat, bound: set<string>, args: set<string>, iv: set<string>)
    ensures AllWellFormed(Trues(n), bound, args, iv)
  {
    if n > 0 { TruesWellFormed(n - 1, bound, args, iv); }
  }

  lemma {:induction false} TruesResolve(n: nat, sc: Scopes, iv: set<string>, next: nat)
    requires sc.Within?
    ensures ResolveAll(Trues(n), sc, iv, next) == (ResolvedTrues(n), next)
  {
    if n > 0 { TruesResolve(n - 1, sc, iv, next); }
  }

  lemma {:induction false} TruesCode(n: nat, p: Pool)
    requires n > 0
    ensures var c := BodyCode(ResolvedTrues(n), p); |c.words| == 2 * n - 1 && c.pool == p && c.ok && c.near
  {
    assert Code(PushBool(true), p) == One(PushTrue, 0, p);
    if n > 1 { TruesCode(n - 1, p); }
  }

  lemma LongMethodResolves(n: nat)
    ensures MethodWellFormed(LongMethod(n), {})
    ensures ResolveMethod(LongMethod(n), {}) == RBlock(1, [], RCons(Cond(IfTrue, true, PushBool(false), ResolvedTrues(n)), RNil))
  {
    hide MethodCaptured;
    var none: seq<string> := [];
    assert none + none == none && Elems(none) == {};
    var b := Block([], [], Trues(n));
    TruesWellFormed(n, {} + {}, ({} - {}) + {}, {} - {});
    assert DeclaresOk(none + none);
    assert WellFormed(b, {}, {}, {});
    assert AllWellFormed(More(b, NoNodes), {}, {}, {});
    assert WellFormed(LongSend(n), {}, {}, {});
    assert {} - Elems(none) == {};
    assert AllWellFormed(LongMethod(n).body, {}, {}, {});
    var sc := Within(MethodScope(LongMethod(n), {}), NoScope);
    assert InlineShapeOf(LongSend(n)) == InlineIf && Inlined(LongSend(n), {});
    TruesResolve(n, sc, {}, 1);
    assert Resolved(BoolLit(false), sc, {}, 1) == (PushBool(false), 1);
    assert ResolveInlined(LongSend(n), sc, {}, 1) == (Cond(IfTrue, true, PushBool(false), ResolvedTrues(n)), 1);
    assert Resolved(LongSend(n), sc, {}, 1) == ResolveInlined(LongSend(n), sc, {}, 1);
    assert ResolveAll(LongMethod(n).body, sc, {}, 1).0 == RCons(Cond(IfTrue, true, PushBool(false), ResolvedTrues(n)), RNil);
    assert Defines(none + none, 0, 1, MethodCaptured(LongMethod(n), {}), 0) == [];
  }

  lemma CondParts(n: nat, p: Pool) returns (b: Branches)
    requires n > 0 && p == Pool([], [])
    ensures Code(Cond(IfTrue, true, PushBool(false), ResolvedTrues(n)), p) == Joined(b)
    ensures |b.test.words| == 1 && b.test.ok && b.test.near && |b.guard.words| == 1 && b.guard.ok && b.guard.near
    ensures b.first.ok && b.first.near && b.jump == JumpOver(JumpIfFalse, 2 * n, b.guard.pool)
    ensures b.skip == JumpOver(Jump, 1, b.first.pool) && b.second == One(PushNilOp, 0, b.first.pool)
  {
    var e := Cond(IfTrue, true, PushBool(false), ResolvedTrues(n));
    assert Code(PushBool(false), p) == One(PushFalse, 0, p);
    var a := Sym(AssertBoolOrDnu, SelectorConst(IfTrue), p);
    assert |a.words| == 1 && a.ok && a.near && |Wide(Jump, 1)| == 1;
    TruesCode(n, a.pool);
    hide Wide, WideWith, Sym, BodyCode;
    b := Parts(e, p);
  }

  lemma CondWords(n: nat, p: Pool)
    requires n > 0 && p == Pool([], [])
    ensures var c := Code(Cond(IfTrue, true, PushBool(false), ResolvedTrues(n)), p);
      && c.ok && (c.near <==> 2 * n <= MAX_OPERAND)
      && CodeAt(c.words, 2, Wide(JumpIfFalse, 2 * n))
  {
    var b := CondParts(n, p);
    hide Wide, WideWith, Code, CodeAt;
    var c := Joined(b);
    var rest := b.first.words + (b.skip.words + b.second.words);
    assert c.words == b.test.words + (b.guard.words + (b.jump.words + rest));
    assert c.words == (b.test.words + b.guard.words) + b.jump.words + rest;
    InTheMiddle(b.test.words + b.guard.words, b.jump.words, rest, c.words);
  }

  lemma InTheMiddle(a: seq<Word>, code: seq<Word>, b: seq<Word>, r: seq<Word>)
    requires r == a + code + b
    ensures CodeAt(r, |a|, code)
  {
  }

  /** The emitter takes every one of these methods; its forward jump reaches the end of the branch
      exactly when the branch is no longer than 24 bits can say. With a longer one the jump lands inside
      the branch it should pass over. */
  lemma LongBranchIsFar(n: nat)
    requires n > 0
    ensures var c := BlockCode(ResolveMethod(LongMethod(n), {}), true);
      && MethodWellFormed(LongMethod(n), {}) && c.ok && (c.near <==> 2 * n <= MAX_OPERAND)
      && Decode(c.words, 2, 0) == Decoded(JumpIfFalse, 2 * n % OPERAND_RANGE, 2 + |Wide(JumpIfFalse, 2 * n)|)
  {
    hide Wide, WideWith, Decode, MethodWellFormed;
    LongMethodResolves(n);
    var blk := RBlock(1, [], RCons(Cond(IfTrue, true, PushBool(false), ResolvedTrues(n)), RNil));
    CondWords(n, Pool([], []));
    var code := Code(Cond(IfTrue, true, PushBool(false), ResolvedTrues(n)), Pool([], []));
    assert BodyCode(blk.body, Pool([], [])) == code && !EndsWithReturn(blk.body);
    hide Code, BodyCode;
    var c := BlockCode(blk, true);
    var end := Then(One(Pop, 0, code.pool), Then(One(PushLocal, 0, code.pool), One(Op.Return, 0, code.pool)));
    assert c == Then(Nothing(Pool([], [])), Then(code, end));
    assert c.words == code.words + end.words;
    StillThere(code.words, end.words, 2, Wide(JumpIfFalse, 2 * n));
    WideDecodesExactly(c.words, 2, JumpIfFalse, 2 * n);
  }

  lemma StillThere(a: seq<Word>, b: seq<Word>, p: nat, code: seq<Word>)
    requires CodeAt(a, p, code)
    ensures CodeAt(a + b, p, code)
  {
    assert (a + b)[p..p + |code|] == a[p..p + |code|];
  }
}
