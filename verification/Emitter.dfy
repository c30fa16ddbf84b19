/** The compiler's emission pass: one walk over a method that resolves names, appends to the
    module under construction and fixes up jumps in place. It produces exactly the code of the
    resolved method. */
module Emitter {
  import opened Syntax
  import opened Analysis
  import opened Resolve
  import opened Bytecode
  import opened Layout
  import opened Codegen
  import opened Assembler

  function PoolOf(m: BytecodeModule): Pool
    reads m
  {
    Pool(m.consts, m.blocks)
  }

  /** The module has grown by this code. */
  ghost predicate Grown(m: BytecodeModule, before: seq<Word>, c: Coded)
    reads m
  {
    m.words == before + c.words && PoolOf(m) == c.pool
  }

  method PutSym(m: BytecodeModule, op: Op, c: Const) returns (ok: bool)
    requires m.Valid() && !c.IntConst?
    modifies m
    ensures m.Valid() && var s := Sym(op, c, old(PoolOf(m))); ok == s.ok && (ok ==> Grown(m, old(m.words), s))
  {
    var i := m.InternSymbol(c);
    ok := m.EmitWide(op, i);
  }

  lemma GrownThen(m: BytecodeModule, before: seq<Word>, a: Coded, b: Coded)
    requires Grown(m, before + a.words, b)
    ensures Grown(m, before, Then(a, b))
  {
    assert before + (a.words + b.words) == before + a.words + b.words;
  }

  // ----- Jumps in place -----

  lemma LastFirst(j1: ForwardJump, j2: ForwardJump)
    requires j1.pos < j2.pos
    ensures Descending([j1, j2]) == [j2, j1]
  {
    assert [j1, j2][1..] == [j2] && [j2][1..] == [];
    assert Descending([j2]) == Insert(j2, []) == [j2];
  }

  /** A single pending jump over the rest of the code. */
  lemma OneJump(w: seq<Word>, op: Op, rest: seq<Word>, target: nat)
    requires op != Extend && |w| < target <= |w| + 1 + |rest|
    ensures var all, js := w + [Word(op, 0)] + rest, [ForwardJump(|w|, target)];
      Pending(all, js) && Relaxed(all, js) == w + Wide(op, target - (|w| + 1)) + rest
  {
    hide WideWith, Widened;
    var all, js, k := w + [Word(op, 0)] + rest, [ForwardJump(|w|, target)], Prefixes(target - (|w| + 1));
    assert all[|w|] == Word(op, 0);
    assert js[1..] == [];
    RelaxedStep(all, js);
    assert Moved([], |w|, k) == [];
    WidenFirst(w, op, rest, target - (|w| + 1), k);
    NothingPending(Widened(all, |w|, target - (|w| + 1), k));
  }

  /** Code with two jumps still to be resolved. */
  function TwoOpen(w: seq<Word>, op1: Op, b: seq<Word>, op2: Op, c: seq<Word>): seq<Word> {
    w + [Word(op1, 0)] + b + [Word(op2, 0)] + c
  }

  /** The first leads behind the second, the second to the end. */
  function JumpsOf(w: seq<Word>, b: seq<Word>, c: seq<Word>): (js: seq<ForwardJump>)
    ensures |js| == 2 && js[0].pos < js[1].pos
  {
    [ForwardJump(|w|, |w| + 2 + |b|), ForwardJump(|w| + 1 + |b|, |w| + 2 + |b| + |c|)]
  }

  lemma TwoPending(w: seq<Word>, op1: Op, b: seq<Word>, op2: Op, c: seq<Word>)
    requires op1 != Extend && op2 != Extend && c != []
    ensures var js := JumpsOf(w, b, c);
      Descending(js) == [js[1], js[0]] && Pending(TwoOpen(w, op1, b, op2, c), [js[1], js[0]])
  {
    hide Descending;
    var all, js := TwoOpen(w, op1, b, op2, c), JumpsOf(w, b, c);
    LastFirst(js[0], js[1]);
    assert all[js[0].pos] == Word(op1, 0) && all[js[1].pos] == Word(op2, 0);
  }

  /** Resolved together, the last first, each is as wide as its distance needs. */
  lemma TwoJumps(w: seq<Word>, op1: Op, b: seq<Word>, op2: Op, c: seq<Word>)
    requires op1 != Extend && op2 != Extend && c != []
    requires Pending(TwoOpen(w, op1, b, op2, c), Descending(JumpsOf(w, b, c)))
    ensures Relaxed(TwoOpen(w, op1, b, op2, c), Descending(JumpsOf(w, b, c)))
         == w + (Wide(op1, |b| + |Wide(op2, |c|)|) + (b + (Wide(op2, |c|) + c)))
  {
    hide WideWith, Widened, Relaxed, Descending, Pending;
    TwoPending(w, op1, b, op2, c);
    var all, js := TwoOpen(w, op1, b, op2, c), JumpsOf(w, b, c);
    var k2, skip := Prefixes(|c|), Wide(op2, |c|);
    RelaxedStep(all, [js[1], js[0]]);
    assert [js[1], js[0]][1..] == [js[0]];
    var first := ForwardJump(|w|, |w| + 2 + |b| + k2);
    assert Moved([js[0]], js[1].pos, k2) == [first];
    WidenSecond(w, op1, b, op2, c, k2);
    OneJump(w, op1, b + (skip + c), |w| + 2 + |b| + k2);
    Regroup(w, Wide(op1, |b| + |skip|), b, skip, c);
    Regroup(w, [Word(op1, 0)], b, skip, c);
  }

  lemma Regroup(w: seq<Word>, x: seq<Word>, b: seq<Word>, y: seq<Word>, c: seq<Word>)
    ensures w + x + (b + (y + c)) == w + (x + (b + (y + c)))
    ensures w + x + b + y + c == w + x + (b + (y + c))
  {
  }

  lemma WidenSecond(w: seq<Word>, op1: Op, b: seq<Word>, op2: Op, c: seq<Word>, k: nat)
    requires k <= 2
    ensures var all := w + [Word(op1, 0)] + b + [Word(op2, 0)] + c;
      Widened(all, |w| + 1 + |b|, |c|, k) == w + [Word(op1, 0)] + b + WideWith(op2, |c|, k) + c
  {
    hide WideWith;
    var front := w + [Word(op1, 0)] + b;
    var all := front + [Word(op2, 0)] + c;
    assert all[..|front|] == front && all[|front|] == Word(op2, 0) && all[|front| + 1..] == c;
  }

  lemma WidenFirst(w: seq<Word>, op: Op, rest: seq<Word>, offset: nat, k: nat)
    requires k <= 2
    ensures Widened(w + [Word(op, 0)] + rest, |w|, offset, k) == w + WideWith(op, offset, k) + rest
  {
    hide WideWith;
    var all := w + [Word(op, 0)] + rest;
    assert all[..|w|] == w && all[|w|] == Word(op, 0) && all[|w| + 1..] == rest;
  }

  /** Closing a loop does not depend on the code in front of it. */
  lemma ClosedBehind(before: seq<Word>, w: seq<Word>, exit: nat)
    requires exit < |w|
    ensures Closed(before + w, |before|, |before| + exit) == before + Closed(w, 0, exit)
    ensures BackOperand(|before + w| + ExitWidth(before + w, |before| + exit) - |before|)
         == BackOperand(|w| + ExitWidth(w, exit))
  {
    hide WideWith, Wide, BackOperand, Closed, Prefixes;
    ClosedParts(before + w, |before|, |before| + exit);
    ClosedParts(w, 0, exit);
    var k := ExitWidth(w, exit);
    assert ExitWidth(before + w, |before| + exit) == k;
    var back := BackOperand(|w| + k);
    var code, tail := WideWith(w[exit].op, |w| - (exit + 1) + 1 + Prefixes(back), k), Wide(JumpBack, back);
    BehindParts(before, w, exit, code, tail);
  }

  lemma BehindParts(before: seq<Word>, w: seq<Word>, exit: nat, code: seq<Word>, tail: seq<Word>)
    requires exit < |w|
    ensures var all, at := before + w, |before| + exit;
      && all[at] == w[exit]
      && all[..at] + code + (all[at + 1..] + tail) == before + (w[..exit] + code + (w[exit + 1..] + tail))
  {
    var all, at := before + w, |before| + exit;
    assert all[..at] == before + w[..exit] && all[at + 1..] == w[exit + 1..];
    assert before + w[..exit] + code + (w[exit + 1..] + tail) == before + (w[..exit] + code + (w[exit + 1..] + tail));
  }

  // ----- The walk -----

  class Compiler {
    var scopes: Scopes         // the scope stack, innermost first
    var nextSlot: nat          // the next free slot of the innermost scope
    var instVars: set<string>  // the instance variables no declaration hides here

    constructor ()
      ensures scopes == NoScope && nextSlot == 0 && instVars == {}
    {
      scopes, nextSlot, instVars := NoScope, 0, {};
    }

    /** What a variable reference compiles to. */
    method EmitVariable(m: BytecodeModule, x: string) returns (ok: bool)
      requires m.Valid() && scopes.Within?
      modifies m
      ensures m.Valid()
      ensures var c := Code(Resolved(Ident(x), scopes, instVars, nextSlot).0, old(PoolOf(m)));
        ok == c.ok && (ok ==> Grown(m, old(m.words), c))
    {
      hide Where;
      match Where(scopes, instVars, x)
      case InDict => ok := PutSym(m, PushCaptured, NameConst(x));
      case InSlot(s) => ok := m.EmitWide(PushLocal, s);
      case InSelf => ok := PutSym(m, PushInstVar, NameConst(x));
      case Undeclared => m.Emit(PushNilOp, 0); ok := true;
    }

    /** A store of the value on the stack, which stays there. */
    method EmitStore(m: BytecodeModule, x: string, ghost value: RExpr, ghost before: seq<Word>, ghost p: Pool) returns (ok: bool)
      requires m.Valid() && scopes.Within? && Grown(m, before, Code(value, p)) && Code(value, p).ok
      requires Where(scopes, instVars, x) != Undeclared
      modifies m
      ensures m.Valid()
      ensures var c := Code(StoreOf(Where(scopes, instVars, x), x, value), p); ok == c.ok && (ok ==> Grown(m, before, c))
    {
      hide Where, Sym;
      var place := Where(scopes, instVars, x);
      ghost var v := Code(value, p);
      StoreOfCode(place, x, value, p);
      m.Emit(Dup, 0);
      match place
      case InDict =>
        ok := PutSym(m, Op.StoreCaptured, NameConst(x));
        if ok { GrownThrice(m, before, v, One(Dup, 0, v.pool), Sym(Op.StoreCaptured, NameConst(x), v.pool)); }
      case InSlot(s) =>
        ok := m.EmitWide(Op.StoreLocal, s);
        if ok { GrownThrice(m, before, v, One(Dup, 0, v.pool), Instr(Op.StoreLocal, s, v.pool)); }
      case InSelf =>
        ok := PutSym(m, Op.StoreInstVar, NameConst(x));
        if ok { GrownThrice(m, before, v, One(Dup, 0, v.pool), Sym(Op.StoreInstVar, NameConst(x), v.pool)); }
    }

    /** Emits the code of an expression. An operand of more than 24 bits makes it fail. */
    method EmitExpr(m: BytecodeModule, n: Node) returns (ok: bool)
      requires m.Valid() && scopes.Within?
      modifies this, m
      ensures m.Valid()
      ensures var r := Resolved(n, old(scopes), old(instVars), old(nextSlot));
        var c := Code(r.0, old(PoolOf(m)));
        ok == c.ok && (ok ==> Grown(m, old(m.words), c) && nextSlot == r.1 && scopes == old(scopes) && instVars == old(instVars))
      decreases n, 6
    {
      hide Where, Inlined, ResolveInlined, ResolveBlock, BlockCode;
      match n
      case IntLit(k) => var i := m.AddInteger(k); ok := m.EmitWide(PushConst, i);
      case BoolLit(b) => m.Emit(if b then PushTrue else PushFalse, 0); ok := true;
      case NilLit => m.Emit(PushNilOp, 0); ok := true;
      case SelfRef => m.Emit(PushSelfOp, 0); ok := true;
      case Ident(x) => ok := EmitVariable(m, x);
      case Assignment(_, _) => ok := EmitAssignment(m, n);
      case Binary(_, _, _) => ok := EmitBinary(m, n);
      case Send(_, _, _) => if Inlined(n, instVars) { ok := EmitInlined(m, n); } else { ok := EmitSend(m, n); }
      case Block(_, _, _) => ok := EmitBlock(m, n);
      case Return(_) => ok := EmitReturn(m, n);
    }

    method EmitAssignment(m: BytecodeModule, n: Node) returns (ok: bool)
      requires m.Valid() && scopes.Within? && n.Assignment?
      modifies this, m
      ensures m.Valid()
      ensures var r := Resolved(n, old(scopes), old(instVars), old(nextSlot));
        var c := Code(r.0, old(PoolOf(m)));
        ok == c.ok && (ok ==> Grown(m, old(m.words), c) && nextSlot == r.1 && scopes == old(scopes) && instVars == old(instVars))
      decreases n, 3
    {
      hide Where;
      if Where(scopes, instVars, n.name) == Undeclared {
        m.Emit(PushNilOp, 0);
        ok := true;
      } else {
        ghost var before, p, r := m.words, PoolOf(m), Resolved(n.value, scopes, instVars, nextSlot);
        StoreFails(Where(scopes, instVars, n.name), n.name, r.0, p);
        ok := EmitExpr(m, n.value);
        if ok { ok := EmitStore(m, n.name, r.0, before, p); }
      }
    }

    method EmitReturn(m: BytecodeModule, n: Node) returns (ok: bool)
      requires m.Valid() && scopes.Within? && n.Return?
      modifies this, m
      ensures m.Valid()
      ensures var r := Resolved(n, old(scopes), old(instVars), old(nextSlot));
        var c := Code(r.0, old(PoolOf(m)));
        ok == c.ok && (ok ==> Grown(m, old(m.words), c) && nextSlot == r.1 && scopes == old(scopes) && instVars == old(instVars))
      decreases n, 3
    {
      ghost var before, p, r := m.words, PoolOf(m), Resolved(n.value, scopes, instVars, nextSlot);
      ok := EmitExpr(m, n.value);
      if ok {
        m.Emit(Op.Return, 0);
        GrownThen(m, before, Code(r.0, p), One(Op.Return, 0, Code(r.0, p).pool));
      }
    }

    method EmitBinary(m: BytecodeModule, n: Node) returns (ok: bool)
      requires m.Valid() && scopes.Within? && n.Binary?
      modifies this, m
      ensures m.Valid()
      ensures var r := Resolved(n, old(scopes), old(instVars), old(nextSlot));
        var c := Code(r.0, old(PoolOf(m)));
        ok == c.ok && (ok ==> Grown(m, old(m.words), c) && nextSlot == r.1 && scopes == old(scopes) && instVars == old(instVars))
      decreases n, 3
    {
      BinaryCode(n, scopes, instVars, nextSlot, PoolOf(m));
      hide Sym, Code, Resolved;
      ghost var before, p := m.words, PoolOf(m);
      ghost var (x, n1) := Resolved(n.left, scopes, instVars, nextSlot);
      ghost var (y, n2) := Resolved(n.right, scopes, instVars, n1);
      ghost var a := Code(x, p);
      ghost var b := Code(y, a.pool);
      ok := EmitExpr(m, n.left);
      if ok {
        ok := EmitExpr(m, n.right);
        if ok {
          ok := PutSym(m, BinInt(n.op), OperatorConst(n.op));
          if ok { GrownThrice(m, before, a, b, Sym(BinInt(n.op), OperatorConst(n.op), b.pool)); }
        }
      }
    }

    method EmitArgs(m: BytecodeModule, ns: Nodes) returns (ok: bool)
      requires m.Valid() && scopes.Within?
      modifies this, m
      ensures m.Valid()
      ensures var r := ResolveAll(ns, old(scopes), old(instVars), old(nextSlot));
        var c := ArgsCode(r.0, old(PoolOf(m)));
        ok == c.ok && (ok ==> Grown(m, old(m.words), c) && nextSlot == r.1 && scopes == old(scopes) && instVars == old(instVars))
      decreases ns, 0
    {
      hide Code, Resolved;
      match ns
      case NoNodes => ok := true;
      case More(h, t) =>
        ghost var before, p := m.words, PoolOf(m);
        ghost var (x, n1) := Resolved(h, scopes, instVars, nextSlot);
        ghost var a := Code(x, p);
        ghost var rest := ResolveAll(t, scopes, instVars, n1).0;
        ok := EmitExpr(m, h);
        if ok {
          ok := EmitArgs(m, t);
          if ok { GrownThen(m, before, a, ArgsCode(rest, a.pool)); }
        }
    }

    method EmitSend(m: BytecodeModule, n: Node) returns (ok: bool)
      requires m.Valid() && scopes.Within? && n.Send? && !Inlined(n, instVars)
      modifies this, m
      ensures m.Valid()
      ensures var r := Resolved(n, old(scopes), old(instVars), old(nextSlot));
        var c := Code(r.0, old(PoolOf(m)));
        ok == c.ok && (ok ==> Grown(m, old(m.words), c) && nextSlot == r.1 && scopes == old(scopes) && instVars == old(instVars))
      decreases n, 3
    {
      SendCode(n, scopes, instVars, nextSlot, PoolOf(m));
      hide Sym, Code, Resolved, ArgsCode, ResolveAll, Inlined;
      ghost var before, p := m.words, PoolOf(m);
      ghost var (x, n1) := Resolved(n.recv, scopes, instVars, nextSlot);
      ghost var a := Code(x, p);
      ghost var b := ArgsCode(ResolveAll(n.args, scopes, instVars, n1).0, a.pool);
      ok := EmitExpr(m, n.recv);
      if ok {
        ok := EmitArgs(m, n.args);
        if ok {
          ok := PutSym(m, SendOp(n.sel), SelectorConst(n.sel));
          if ok { GrownThrice(m, before, a, b, Sym(SendOp(n.sel), SelectorConst(n.sel), b.pool)); }
        }
      }
    }

    /** A statement list, in line: each value but the last is dropped. */
    method EmitStatements(m: BytecodeModule, ns: Nodes) returns (ok: bool)
      requires m.Valid() && scopes.Within?
      modifies this, m
      ensures m.Valid()
      ensures var r := ResolveAll(ns, old(scopes), old(instVars), old(nextSlot));
        var c := BodyCode(r.0, old(PoolOf(m)));
        ok == c.ok && (ok ==> Grown(m, old(m.words), c) && nextSlot == r.1 && scopes == old(scopes) && instVars == old(instVars))
      decreases ns, 0
    {
      hide Code, Resolved;
      match ns
      case NoNodes => m.Emit(PushNilOp, 0); ok := true;
      case More(h, NoNodes) => ok := EmitExpr(m, h);
      case More(h, t) =>
        ghost var before, p := m.words, PoolOf(m);
        ghost var (x, n1) := Resolved(h, scopes, instVars, nextSlot);
        ghost var a := Code(x, p);
        ghost var rest := ResolveAll(t, scopes, instVars, n1).0;
        ok := EmitExpr(m, h);
        if ok {
          m.Emit(Pop, 0);
          ok := EmitStatements(m, t);
          if ok { GrownThrice(m, before, a, One(Pop, 0, a.pool), BodyCode(rest, a.pool)); }
        }
    }

    /** Opens a dictionary for the captured bindings of the scope, if there are any. */
    method EmitPrologue(m: BytecodeModule, ds: seq<Define>, isMethod: bool) returns (ok: bool)
      requires m.Valid() && m.words == [] && PoolOf(m) == Pool([], [])
      modifies m
      ensures m.Valid()
      ensures var c := Prologue(ds, isMethod, Pool([], [])); ok == c.ok && (ok ==> Grown(m, [], c))
    {
      hide DefineCode, DefinesCode;
      if ds == [] { return true; }
      m.Emit(MakeCaptured, if isMethod then 0 else 1);
      ghost var p := Pool([], []);
      ghost var make := One(MakeCaptured, if isMethod then 0 else 1, p);
      ghost var done := Nothing(p);
      DefinesStart(ds, p);
      var i := 0;
      while i < |ds|
        invariant i <= |ds| && m.Valid() && done.ok && Grown(m, make.words, done)
        invariant Then(done, DefinesCode(ds[i..], done.pool)) == DefinesCode(ds, p)
      {
        DefinesStep(ds, i, done);
        ghost var d := DefineCode(ds[i], done.pool);
        ok := EmitDefine(m, ds[i]);
        if !ok { return; }
        GrownThen(m, make.words, done, d);
        done := Then(done, d);
        i := i + 1;
      }
      DefinesEnd(ds, done);
      GrownThen(m, [], make, done);
      ok := true;
    }

    method EmitDefine(m: BytecodeModule, d: Define) returns (ok: bool)
      requires m.Valid()
      modifies m
      ensures m.Valid() && var c := DefineCode(d, old(PoolOf(m))); ok == c.ok && (ok ==> Grown(m, old(m.words), c))
    {
      hide Wide, Find, Interned;
      var sym := m.InternSymbol(NameConst(d.name));
      ok := true;
      match d.fromSlot {
        case FromSlot(s) => ok := m.EmitWide(PushLocal, s);
        case FromNil => m.Emit(PushNilOp, 0);
      }
      if ok { ok := m.EmitWide(DefineCaptured, sym); }
    }

    /** The module of a block literal, compiled in a scope of its own. */
    method CompileBlock(sub: BytecodeModule, n: Node) returns (ok: bool)
      requires sub.Valid() && sub.words == [] && PoolOf(sub) == Pool([], []) && n.Block?
      modifies this, sub
      ensures sub.Valid()
      ensures var c := BlockCode(ResolveBlock(n, old(scopes), old(instVars)), false); ok == c.ok && (ok ==> Grown(sub, [], c))
      decreases n, 2
    {
      ResolvedBlockCode(n, scopes, instVars);
      hide Code, Resolved, Prologue, BodyCode, ResolveAll, Captured, Defines, BlockCode, ResolveBlock;
      var names, captured := Declared(n), Captured(n, instVars);
      scopes := Within(BlockScope(n, instVars), scopes);
      nextSlot := |names|;
      instVars := instVars - Elems(names);
      ghost var d := Prologue(Defines(names, |n.params|, 0, captured, 0), false, Pool([], []));
      ghost var b := BodyCode(ResolveAll(n.body, scopes, instVars, nextSlot).0, d.pool);
      ok := EmitPrologue(sub, Defines(names, |n.params|, 0, captured, 0), false);
      if !ok { return; }
      ok := EmitStatements(sub, n.body);
      if !ok { return; }
      sub.Emit(ReturnTop, 0);
      GrownThrice(sub, [], d, b, One(ReturnTop, 0, b.pool));
    }

    /** A block literal becomes a module of its own, numbered as it comes up. */
    method EmitBlock(m: BytecodeModule, n: Node) returns (ok: bool)
      requires m.Valid() && scopes.Within? && n.Block?
      modifies this, m
      ensures m.Valid()
      ensures var r := Resolved(n, old(scopes), old(instVars), old(nextSlot));
        var c := Code(r.0, old(PoolOf(m)));
        ok == c.ok && (ok ==> Grown(m, old(m.words), c) && nextSlot == r.1 && scopes == old(scopes) && instVars == old(instVars))
      decreases n, 3
    {
      BlockLiteralCode(n, scopes, instVars, nextSlot, PoolOf(m));
      hide Code, Resolved, BlockCode, ResolveBlock;
      var outer, outerNext, outerVars := scopes, nextSlot, instVars;
      var sub := new BytecodeModule(|n.params|);
      ok := CompileBlock(sub, n);
      if !ok { return; }
      scopes, nextSlot, instVars := outer, outerNext, outerVars;
      ghost var c := BlockCode(ResolveBlock(n, outer, outerVars), false);
      assert [] + c.words == c.words;
      assert sub.Finished() == Packed(c, |n.params|);
      var i := m.AddBlockModule(sub.Finished());
      ok := m.EmitWide(PushBlock, i);
    }

    /** Sends whose blocks run in the frame of the code around them. */
    method EmitInlined(m: BytecodeModule, n: Node) returns (ok: bool)
      requires m.Valid() && scopes.Within? && Inlined(n, instVars)
      modifies this, m
      ensures m.Valid()
      ensures var r := Resolved(n, old(scopes), old(instVars), old(nextSlot));
        var c := Code(r.0, old(PoolOf(m)));
        ok == c.ok && (ok ==> Grown(m, old(m.words), c) && nextSlot == r.1 && scopes == old(scopes) && instVars == old(instVars))
      decreases n, 5
    {
      InlinedIs(n, scopes, instVars, nextSlot);
      hide Code, Resolved, ResolveInlined, InnerAll;
      match InlineShapeOf(n)
      case InlineIf => ok := EmitIf(m, n);
      case InlineIfElse => ok := EmitIfElse(m, n);
      case InlineWhile => ok := EmitWhile(m, n);
      case InlineToDo => ok := EmitToDo(m, n);
    }

    /** Both jumps of a conditional are resolved once their targets are known. */
    method FinishBranches(m: BytecodeModule, jSkip: nat, skipTarget: nat, jDone: nat,
                          ghost w: seq<Word>, ghost op: Op, ghost b: seq<Word>, ghost c: seq<Word>)
      requires m.Valid() && op != Extend && c != [] && m.words == TwoOpen(w, op, b, Jump, c)
      requires jSkip == |w| && jDone == |w| + 1 + |b| && skipTarget == jDone + 1
      modifies m
      ensures m.Valid() && PoolOf(m) == old(PoolOf(m))
      ensures m.words == w + (Wide(op, |b| + |Wide(Jump, |c|)|) + (b + (Wide(Jump, |c|) + c)))
    {
      hide Relaxed, Wide, Descending;
      TwoPending(w, op, b, Jump, c);
      assert [ForwardJump(jSkip, skipTarget), ForwardJump(jDone, |m.words|)] == JumpsOf(w, b, c);
      TwoJumps(w, op, b, Jump, c);
      ResolveForwardJumps(m, [ForwardJump(jSkip, skipTarget), ForwardJump(jDone, |m.words|)]);
    }

    /** The condition and the guard that lets only a Boolean past. */
    method EmitTest(m: BytecodeModule, n: Node) returns (ok: bool)
      requires m.Valid() && scopes.Within? && n.Send?
      modifies this, m
      ensures m.Valid()
      ensures var (t, n1) := Resolved(n.recv, old(scopes), old(instVars), old(nextSlot));
        var a := Code(t, old(PoolOf(m)));
        var g := Sym(AssertBoolOrDnu, SelectorConst(n.sel), a.pool);
        && ok == (a.ok && g.ok)
        && (ok ==> m.words == old(m.words) + a.words + g.words && PoolOf(m) == g.pool
                   && nextSlot == n1 && scopes == old(scopes) && instVars == old(instVars))
      decreases n, 1
    {
      hide Code, Resolved, Sym;
      ok := EmitExpr(m, n.recv);
      if ok { ok := PutSym(m, AssertBoolOrDnu, SelectorConst(n.sel)); }
    }

    method EmitIf(m: BytecodeModule, n: Node) returns (ok: bool)
      requires m.Valid() && scopes.Within? && Inlined(n, instVars) && InlineShapeOf(n) == InlineIf
      modifies this, m
      ensures m.Valid()
      ensures var r := ResolveInlined(n, old(scopes), old(instVars), old(nextSlot));
        var c := Code(r.0, old(PoolOf(m)));
        ok == c.ok && (ok ==> Grown(m, old(m.words), c) && nextSlot == r.1 && scopes == old(scopes) && instVars == old(instVars))
      decreases n, 2
    {
      hide Code, Resolved, ResolveAll, BodyCode, Parts, Wide, Sym, Inlined, ResolveInlined, Chained;
      ghost var e, p, before := ResolveInlined(n, scopes, instVars, nextSlot).0, PoolOf(m), m.words;
      IfIs(n, scopes, instVars, nextSlot);
      BranchesAre(e, p);
      ghost var b := Parts(e, p);
      ok := EmitTest(m, n);
      if !ok { return; }
      var jSkip := |m.words|;
      m.Emit(JumpUnless(n.sel == IfTrue), 0);
      ok := EmitStatements(m, n.args.head.body);
      if !ok { return; }
      var jDone := |m.words|;
      m.Emit(Jump, 0);
      var skipTarget := |m.words|;
      m.Emit(PushNilOp, 0);
      FinishBranches(m, jSkip, skipTarget, jDone, before + b.test.words + b.guard.words, JumpUnless(n.sel == IfTrue), b.first.words, b.second.words);
      JoinedWords(before, b);
    }

    /** Both branches, each behind the jump that skips it. */
    method EmitBranches(m: BytecodeModule, n: Node) returns (ok: bool)
      requires m.Valid() && scopes.Within? && InlineShapeOf(n) == InlineIfElse
      modifies this, m
      ensures m.Valid()
      ensures var (t, n1) := ResolveAll(TrueBranch(n).body, old(scopes), old(instVars), old(nextSlot));
        var (f, n2) := ResolveAll(FalseBranch(n).body, old(scopes), old(instVars), n1);
        var a := BodyCode(t, old(PoolOf(m)));
        var b := BodyCode(f, a.pool);
        var skip := Wide(Jump, |b.words|);
        && ok == (a.ok && b.ok)
        && (ok ==> m.words == old(m.words) + (Wide(JumpIfFalse, |a.words| + |skip|) + (a.words + (skip + b.words)))
                   && PoolOf(m) == b.pool && nextSlot == n2 && scopes == old(scopes) && instVars == old(instVars))
      decreases n, 1
    {
      var thn, els := TrueBranch(n).body, FalseBranch(n).body;
      hide ResolveAll, BodyCode, Wide;
      ghost var before := m.words;
      ghost var t, n1 := ResolveAll(thn, scopes, instVars, nextSlot).0, ResolveAll(thn, scopes, instVars, nextSlot).1;
      ghost var a := BodyCode(t, PoolOf(m));
      ghost var b := BodyCode(ResolveAll(els, scopes, instVars, n1).0, a.pool);
      var jToFalse := |m.words|;
      m.Emit(JumpIfFalse, 0);
      ok := EmitStatements(m, thn);
      if !ok { return; }
      var jDone := |m.words|;
      m.Emit(Jump, 0);
      var falseTarget := |m.words|;
      ok := EmitStatements(m, els);
      if !ok { return; }
      FinishBranches(m, jToFalse, falseTarget, jDone, before, JumpIfFalse, a.words, b.words);
    }

    method EmitIfElse(m: BytecodeModule, n: Node) returns (ok: bool)
      requires m.Valid() && scopes.Within? && Inlined(n, instVars) && InlineShapeOf(n) == InlineIfElse
      modifies this, m
      ensures m.Valid()
      ensures var r := ResolveInlined(n, old(scopes), old(instVars), old(nextSlot));
        var c := Code(r.0, old(PoolOf(m)));
        ok == c.ok && (ok ==> Grown(m, old(m.words), c) && nextSlot == r.1 && scopes == old(scopes) && instVars == old(instVars))
      decreases n, 2
    {
      hide Code, Resolved, ResolveAll, BodyCode, Parts, Wide, Sym, Inlined, ResolveInlined, Chained;
      ghost var e, p, before := ResolveInlined(n, scopes, instVars, nextSlot).0, PoolOf(m), m.words;
      IfElseIs(n, scopes, instVars, nextSlot);
      BranchesAre(e, p);
      ok := EmitTest(m, n);
      if !ok { return; }
      ok := EmitBranches(m, n);
      if !ok { return; }
      JoinedWords(before, Parts(e, p));
    }

    /** The code of a loop so far is closed: exit jump widened, JUMP_BACK appended. */
    method Close(m: BytecodeModule, loopStart: nat, exitPos: nat, ghost before: seq<Word>, ghost l: LoopParts) returns (ok: bool)
      requires m.Valid() && Grown(m, before, Open(l)) && Open(l).ok
      requires loopStart == |before| && exitPos == |before| + |l.head.words|
      modifies m
      ensures m.Valid() && ok == LoopCode(l).ok && (ok ==> Grown(m, before, LoopCode(l)))
    {
      hide Closed, Open, BackOperand, ExitWidth;
      ClosedBehind(before, Open(l).words, |l.head.words|);
      ok := CloseLoop(m, loopStart, exitPos);
    }

    /** The condition of a while loop and the guard behind it. */
    method EmitWhileHead(m: BytecodeModule, n: Node) returns (ok: bool)
      requires m.Valid() && scopes.Within? && InlineShapeOf(n) == InlineWhile
      modifies this, m
      ensures m.Valid()
      ensures var (test, n1) := ResolveAll(n.recv.body, old(scopes), old(instVars), old(nextSlot));
        var h := GuardCode(n.sel, test, old(PoolOf(m)));
        && ok == h.ok
        && (ok ==> Grown(m, old(m.words), h) && nextSlot == n1 && scopes == old(scopes) && instVars == old(instVars))
      decreases n, 0
    {
      hide ResolveAll, BodyCode, Wide, Find, Interned;
      ghost var p, before := PoolOf(m), m.words;
      ghost var q := p.(consts := Interned(p.consts, SelectorConst(n.sel)));
      ghost var g := BodyCode(ResolveAll(n.recv.body, scopes, instVars, nextSlot).0, q);
      // The selector is interned before the condition is compiled.
      var sel := m.InternSymbol(SelectorConst(n.sel));
      ok := EmitStatements(m, n.recv.body);
      if !ok { return; }
      ok := m.EmitWide(AssertBoolOrDnu, sel);
      if ok { GrownThen(m, before, g, Instr(AssertBoolOrDnu, sel, g.pool)); }
    }

    /** The head, the exit jump and the body; the loop is still open. */
    method EmitOpenWhile(m: BytecodeModule, n: Node) returns (ok: bool, jExit: nat)
      requires m.Valid() && scopes.Within? && Inlined(n, instVars) && InlineShapeOf(n) == InlineWhile
      modifies this, m
      ensures m.Valid()
      ensures var r := ResolveInlined(n, old(scopes), old(instVars), old(nextSlot));
        r.0.Loop? && var l := WhileParts(r.0, old(PoolOf(m)));
        && ok == Open(l).ok
        && (ok ==> Grown(m, old(m.words), Open(l)) && jExit == |old(m.words)| + |l.head.words|
                   && nextSlot == r.1 && scopes == old(scopes) && instVars == old(instVars))
      decreases n, 1
    {
      WhileNodeIs(n, scopes, instVars, nextSlot);
      hide Code, ResolveAll, BodyCode, WhileParts, Wide, Inlined, ResolveInlined, Find, Interned, Open, GuardCode;
      ghost var e, p, before := ResolveInlined(n, scopes, instVars, nextSlot).0, PoolOf(m), m.words;
      ghost var l := WhileParts(e, p);
      WhileIsGuarded(e, p);
      OpenFails(l);
      jExit := 0;
      ok := EmitWhileHead(m, n);
      if !ok { return; }
      jExit := |m.words|;
      m.Emit(JumpUnless(n.sel == WhileTrue), 0);
      ok := EmitStatements(m, n.args.head.body);
      if !ok { return; }
      m.Emit(Pop, 0);
      OpenGrown(m, before, l);
    }

    method EmitWhile(m: BytecodeModule, n: Node) returns (ok: bool)
      requires m.Valid() && scopes.Within? && Inlined(n, instVars) && InlineShapeOf(n) == InlineWhile
      modifies this, m
      ensures m.Valid()
      ensures var r := ResolveInlined(n, old(scopes), old(instVars), old(nextSlot));
        var c := Code(r.0, old(PoolOf(m)));
        ok == c.ok && (ok ==> Grown(m, old(m.words), c) && nextSlot == r.1 && scopes == old(scopes) && instVars == old(instVars))
      decreases n, 2
    {
      WhileNodeIs(n, scopes, instVars, nextSlot);
      hide Code, ResolveAll, BodyCode, WhileParts, LoopCode, Wide, Inlined, ResolveInlined, Find, Interned, Open;
      ghost var e, p, before := ResolveInlined(n, scopes, instVars, nextSlot).0, PoolOf(m), m.words;
      ghost var l := WhileParts(e, p);
      WhileIs(e, p);
      LoopFails(l);
      var loopTest := |m.words|;
      var jExit: nat;
      ok, jExit := EmitOpenWhile(m, n);
      if !ok { return; }
      ok := Close(m, loopTest, jExit, before, l);
      if !ok { return; }
      m.Emit(PushNilOp, 0);
      GrownThen(m, before, LoopCode(l), One(PushNilOp, 0, l.tail.pool));
    }

    /** Receiver and bound of a to:do:, evaluated once into two fresh slots; a copy of the
        receiver stays on the stack. */
    method EmitSetup(m: BytecodeModule, n: Node, slotI: nat, ghost e: RExpr) returns (ok: bool)
      requires m.Valid() && scopes.Within? && InlineShapeOf(n) == InlineToDo && e.CountLoop?
      requires e.slotI == slotI && e.slotEnd == slotI + 1
      requires e.start == Resolved(n.recv, scopes, instVars, nextSlot).0
      requires e.stop == Resolved(n.args.head, scopes, instVars, Resolved(n.recv, scopes, instVars, nextSlot).1).0
      modifies this, m
      ensures m.Valid()
      ensures var a := Setup(e, old(PoolOf(m)));
        && ok == a.ok
        && (ok ==> Grown(m, old(m.words), a)
                   && nextSlot == Resolved(n.args.head, old(scopes), old(instVars), Resolved(n.recv, old(scopes), old(instVars), old(nextSlot)).1).1
                   && scopes == old(scopes) && instVars == old(instVars))
      decreases n, 0
    {
      hide Code, Resolved, Wide;
      ghost var p, before := PoolOf(m), m.words;
      ghost var u := Code(e.start, p);
      ghost var t := Code(e.stop, u.pool);
      ok := EmitExpr(m, n.recv);
      if !ok { return; }
      m.Emit(Dup, 0);
      ok := m.EmitWide(Op.StoreLocal, slotI);
      if !ok { return; }
      ok := EmitExpr(m, n.args.head);
      if !ok { return; }
      ok := m.EmitWide(Op.StoreLocal, slotI + 1);
      if !ok { return; }
      FiveParts(before, u.words, [Word(Dup, 0)], Wide(Op.StoreLocal, slotI), t.words, Wide(Op.StoreLocal, slotI + 1));
    }

    /** Counter and bound compared. */
    method EmitCountHead(m: BytecodeModule, ghost e: RExpr, slotI: nat) returns (ok: bool)
      requires m.Valid() && e.CountLoop? && e.slotI == slotI && e.slotEnd == slotI + 1
      modifies m
      ensures m.Valid() && var h := HeadCode(e, old(PoolOf(m))); ok == h.ok && (ok ==> Grown(m, old(m.words), h))
    {
      hide Sym, Wide;
      ghost var p, before := PoolOf(m), m.words;
      ok := m.EmitWide(PushLocal, slotI);
      if !ok { return; }
      ok := m.EmitWide(PushLocal, slotI + 1);
      if !ok { return; }
      ok := PutSym(m, BinInt(Le), OperatorConst(Le));
      if ok { GrownThrice(m, before, Instr(PushLocal, slotI, p), Instr(PushLocal, slotI + 1, p), Sym(BinInt(Le), OperatorConst(Le), p)); }
    }

    /** The counter goes up by one. */
    method EmitIncrement(m: BytecodeModule, slot: nat) returns (ok: bool)
      requires m.Valid()
      modifies m
      ensures m.Valid() && var c := Increment(slot, old(PoolOf(m))); ok == c.ok && (ok ==> Grown(m, old(m.words), c))
    {
      hide Sym, Wide;
      ghost var before := m.words;
      ghost var p' := PoolOf(m).(consts := m.consts + [IntConst(1)]);
      ghost var add := Sym(BinInt(Add), OperatorConst(Add), p');
      var one := m.AddInteger(1);
      ok := m.EmitWide(PushLocal, slot);
      if !ok { return; }
      ok := m.EmitWide(PushConst, one);
      if !ok { return; }
      ok := PutSym(m, BinInt(Add), OperatorConst(Add));
      if !ok { return; }
      ok := m.EmitWide(Op.StoreLocal, slot);
      if ok { FourParts(before, Wide(PushLocal, slot), Wide(PushConst, one), add.words, Wide(Op.StoreLocal, slot)); }
    }

    /** The body of a to:do:, in which its variable is the counter slot, hiding whatever the
        enclosing scope calls by that name. */
    method EmitLoopBody(m: BytecodeModule, n: Node, slotI: nat) returns (ok: bool)
      requires m.Valid() && scopes.Within? && InlineShapeOf(n) == InlineToDo
      modifies this, m
      ensures m.Valid()
      ensures var b := ToDoBody(n);
        var r := ResolveAll(b.body, LoopScope(old(scopes), b.params[0], slotI), old(instVars) - {b.params[0]}, old(nextSlot));
        var c := BodyCode(r.0, old(PoolOf(m)));
        ok == c.ok && (ok ==> Grown(m, old(m.words), c) && nextSlot == r.1 && scopes == old(scopes) && instVars == old(instVars))
      decreases n, 0
    {
      hide ResolveAll, BodyCode;
      var b := ToDoBody(n);
      var x := b.params[0];
      var saved, savedVars := scopes, instVars;
      scopes := LoopScope(scopes, x, slotI);
      instVars := instVars - {x};
      ok := EmitStatements(m, b.body);
      if !ok { return; }
      scopes, instVars := saved, savedVars;
    }

    /** The head, the exit jump, the body and the increment; the loop is still open. */
    method EmitOpenCount(m: BytecodeModule, n: Node, slotI: nat, ghost e: RExpr) returns (ok: bool, jExit: nat)
      requires m.Valid() && scopes.Within? && InlineShapeOf(n) == InlineToDo && e.CountLoop?
      requires e.slotI == slotI && e.slotEnd == slotI + 1
      requires var b := ToDoBody(n);
        e.body == ResolveAll(b.body, LoopScope(scopes, b.params[0], slotI), instVars - {b.params[0]}, nextSlot).0
      modifies this, m
      ensures m.Valid()
      ensures var l := CountParts(e, old(PoolOf(m)));
        && ok == Open(l).ok
        && (ok ==> Grown(m, old(m.words), Open(l)) && jExit == |old(m.words)| + |l.head.words|
                   && (var b := ToDoBody(n); nextSlot == ResolveAll(b.body, LoopScope(old(scopes), b.params[0], slotI),
                                                                    old(instVars) - {b.params[0]}, old(nextSlot)).1)
                   && scopes == old(scopes) && instVars == old(instVars))
      decreases n, 1
    {
      hide ResolveAll, BodyCode, CountParts, HeadCode, Increment, Open, LoopScope;
      ghost var l, before := CountParts(e, PoolOf(m)), m.words;
      CountIs(e, PoolOf(m));
      OpenFails(l);
      jExit := 0;
      ok := EmitCountHead(m, e, slotI);
      if !ok { return; }
      jExit := |m.words|;
      m.Emit(JumpIfFalse, 0);
      ok := EmitLoopBody(m, n, slotI);
      if !ok { return; }
      m.Emit(Pop, 0);
      ok := EmitIncrement(m, slotI);
      if !ok { return; }
      OpenCountGrown(m, before, l, Increment(e.slotI, l.body.pool));
    }

    /** The loop behind the setup, opened and closed. */
    method EmitCounting(m: BytecodeModule, n: Node, slotI: nat, ghost e: RExpr) returns (ok: bool)
      requires m.Valid() && scopes.Within? && InlineShapeOf(n) == InlineToDo && e.CountLoop?
      requires e.slotI == slotI && e.slotEnd == slotI + 1
      requires var b := ToDoBody(n);
        e.body == ResolveAll(b.body, LoopScope(scopes, b.params[0], slotI), instVars - {b.params[0]}, nextSlot).0
      modifies this, m
      ensures m.Valid()
      ensures var c := LoopCode(CountParts(e, old(PoolOf(m))));
        && ok == c.ok
        && (ok ==> Grown(m, old(m.words), c)
                   && (var b := ToDoBody(n); nextSlot == ResolveAll(b.body, LoopScope(old(scopes), b.params[0], slotI),
                                                                    old(instVars) - {b.params[0]}, old(nextSlot)).1)
                   && scopes == old(scopes) && instVars == old(instVars))
      decreases n, 2
    {
      hide ResolveAll, CountParts, LoopCode, Open, LoopScope;
      ghost var l, before := CountParts(e, PoolOf(m)), m.words;
      LoopFails(l);
      var loopFrom := |m.words|;
      var jExit: nat;
      ok, jExit := EmitOpenCount(m, n, slotI, e);
      if ok { ok := Close(m, loopFrom, jExit, before, l); }
    }

    /** Setup and loop, for the resolved form `e` of the send. */
    method EmitCountLoop(m: BytecodeModule, n: Node, slotI: nat, ghost e: RExpr) returns (ok: bool)
      requires m.Valid() && scopes.Within? && InlineShapeOf(n) == InlineToDo && e.CountLoop?
      requires e.slotI == slotI && e.slotEnd == slotI + 1
      requires e.start == Resolved(n.recv, scopes, instVars, nextSlot).0
      requires e.stop == Resolved(n.args.head, scopes, instVars, Resolved(n.recv, scopes, instVars, nextSlot).1).0
      requires e.body == LoopBody(n, scopes, instVars, nextSlot, slotI).0
      modifies this, m
      ensures m.Valid()
      ensures ok == Code(e, old(PoolOf(m))).ok
      ensures ok ==> Grown(m, old(m.words), Code(e, old(PoolOf(m))))
      ensures ok ==> nextSlot == LoopBody(n, old(scopes), old(instVars), old(nextSlot), slotI).1
      ensures ok ==> scopes == old(scopes) && instVars == old(instVars)
      decreases n, 3
    {
      hide Code, Resolved, ResolveAll, CountParts, LoopCode, Setup, LoopScope, Then, Grown, InlineShapeOf;
      ghost var p, before := PoolOf(m), m.words;
      ghost var a := Setup(e, p);
      ToDoCode(e, p);
      ok := EmitSetup(m, n, slotI, e);
      if !ok { return; }
      GrownPool(m, before, a);
      ok := EmitCounting(m, n, slotI, e);
      if ok { GrownThen(m, before, a, LoopCode(CountParts(e, a.pool))); }
    }

    method EmitToDo(m: BytecodeModule, n: Node) returns (ok: bool)
      requires m.Valid() && scopes.Within? && Inlined(n, instVars) && InlineShapeOf(n) == InlineToDo
      modifies this, m
      ensures m.Valid()
      ensures var r := ResolveInlined(n, old(scopes), old(instVars), old(nextSlot));
        var c := Code(r.0, old(PoolOf(m)));
        ok == c.ok && (ok ==> Grown(m, old(m.words), c) && nextSlot == r.1 && scopes == old(scopes) && instVars == old(instVars))
      decreases n, 4
    {
      ToDoIs(n, scopes, instVars, nextSlot);
      hide Code, Resolved, LoopBody, Inlined, ResolveInlined, Grown, InlineShapeOf;
      // Two slots of its own for the counter and the bound.
      var slotI := nextSlot;
      ghost var e := ResolveInlined(n, scopes, instVars, nextSlot).0;
      nextSlot := nextSlot + 2;
      ok := EmitCountLoop(m, n, slotI, e);
    }

    /** Compiles a method into a module of its own. */
    method CompileMethod(d: Method, ivars: set<string>) returns (ok: bool, m: BytecodeModule)
      modifies this
      ensures m.Valid() && fresh(m)
      ensures var c := BlockCode(ResolveMethod(d, ivars), true);
        ok == c.ok && (ok ==> m.Finished() == Assembled(ResolveMethod(d, ivars), true))
    {
      MethodCodeIs(d, ivars);
      hide Code, Prologue, BodyCode, ResolveAll, MethodCaptured, Defines, BlockCode, ResolveMethod, EndsWithReturn;
      var names, captured := d.params + d.temps, MethodCaptured(d, ivars);
      m := new BytecodeModule(1 + |d.params|);
      scopes := Within(MethodScope(d, ivars), NoScope);
      nextSlot := 1 + |names|;
      instVars := ivars - Elems(names);
      ghost var blk := ResolveMethod(d, ivars);
      ghost var pro := Prologue(blk.defines, true, Pool([], []));
      ghost var b := BodyCode(blk.body, pro.pool);
      MethodFails(blk);
      ok := EmitPrologue(m, Defines(names, |d.params|, 1, captured, 0), true);
      if !ok { return; }
      ok := EmitStatements(m, d.body);
      if !ok { return; }
      if !LastIsReturn(d.body) {
        if d.body.More? { m.Emit(Pop, 0); }
        m.Emit(PushLocal, 0);
        m.Emit(Op.Return, 0);
      }
      Trailer(m, pro, b, blk);
    }
  }

  function StoreOf(place: Place, x: string, value: RExpr): RExpr {
    match place
    case InDict => RExpr.StoreCaptured(x, value)
    case InSlot(s) => RExpr.StoreLocal(s, value)
    case InSelf => RExpr.StoreInstVar(x, value)
    case Undeclared => PushNil
  }

  lemma StoreOfCode(place: Place, x: string, value: RExpr, p: Pool)
    ensures var v, c := Code(value, p), Code(StoreOf(place, x, value), p);
      match place
      case InDict => c == Then(v, Then(One(Dup, 0, v.pool), Sym(Op.StoreCaptured, NameConst(x), v.pool)))
      case InSlot(s) => c == Then(v, Then(One(Dup, 0, v.pool), Instr(Op.StoreLocal, s, v.pool)))
      case InSelf => c == Then(v, Then(One(Dup, 0, v.pool), Sym(Op.StoreInstVar, NameConst(x), v.pool)))
      case Undeclared => c == One(PushNilOp, 0, p)
  {
    hide Sym, Instr, Parts, WhileParts, CountParts, Setup, BodyCode, ArgsCode, LoopCode, Joined, Literal;
  }

  lemma GrownThrice(m: BytecodeModule, before: seq<Word>, a: Coded, b: Coded, c: Coded)
    requires m.words == before + a.words + b.words + c.words && PoolOf(m) == c.pool
    ensures Grown(m, before, Then(a, Then(b, c)))
  {
    assert before + (a.words + (b.words + c.words)) == before + a.words + b.words + c.words;
  }

  lemma StoreFails(place: Place, x: string, value: RExpr, p: Pool)
    requires place != Undeclared
    ensures Code(StoreOf(place, x, value), p).ok ==> Code(value, p).ok
  {
    hide Sym, Instr;
    StoreOfCode(place, x, value, p);
  }

  lemma ArithCode(op: BinOp, x: RExpr, y: RExpr, p: Pool)
    ensures var a := Code(x, p);
      var b := Code(y, a.pool);
      Code(Arith(op, x, y), p) == Then(a, Then(b, Sym(BinInt(op), OperatorConst(op), b.pool)))
  {
    hide Sym, Then, Parts, WhileParts, CountParts, Setup, BodyCode, ArgsCode, LoopCode, Joined, Literal, PushClosure, BlockCode;
  }

  lemma BinaryCode(n: Node, sc: Scopes, iv: set<string>, next: nat, p: Pool)
    requires n.Binary? && sc.Within?
    ensures var (x, n1) := Resolved(n.left, sc, iv, next);
      var (y, n2) := Resolved(n.right, sc, iv, n1);
      var a := Code(x, p);
      var b := Code(y, a.pool);
      && Resolved(n, sc, iv, next).1 == n2
      && Code(Resolved(n, sc, iv, next).0, p) == Then(a, Then(b, Sym(BinInt(n.op), OperatorConst(n.op), b.pool)))
  {
    hide Code, Sym, Then, ResolveInlined, ResolveBlock;
    var (x, n1) := Resolved(n.left, sc, iv, next);
    ArithCode(n.op, x, Resolved(n.right, sc, iv, n1).0, p);
  }

  lemma SendCode(n: Node, sc: Scopes, iv: set<string>, next: nat, p: Pool)
    requires n.Send? && sc.Within? && !Inlined(n, iv)
    ensures var (x, n1) := Resolved(n.recv, sc, iv, next);
      var (ys, n2) := ResolveAll(n.args, sc, iv, n1);
      var a := Code(x, p);
      var b := ArgsCode(ys, a.pool);
      && Resolved(n, sc, iv, next).1 == n2
      && Code(Resolved(n, sc, iv, next).0, p) == Then(a, Then(b, Sym(SendOp(n.sel), SelectorConst(n.sel), b.pool)))
  {
    hide Sym, Then, ResolveAll, Inlined, Parts, WhileParts, CountParts, Setup, BodyCode, ArgsCode, LoopCode, Joined, Literal;
  }

  lemma DefinesStart(ds: seq<Define>, p: Pool)
    ensures Then(Nothing(p), DefinesCode(ds[0..], p)) == DefinesCode(ds, p)
  {
    assert ds[0..] == ds;
    assert [] + DefinesCode(ds, p).words == DefinesCode(ds, p).words;
  }

  lemma DefinesStep(ds: seq<Define>, i: nat, done: Coded)
    requires i < |ds|
    ensures var d := DefineCode(ds[i], done.pool);
      Then(done, DefinesCode(ds[i..], done.pool)) == Then(Then(done, d), DefinesCode(ds[i + 1..], d.pool))
  {
    hide DefineCode;
    assert ds[i..][0] == ds[i] && ds[i..][1..] == ds[i + 1..];
    var d := DefineCode(ds[i], done.pool);
    var rest := DefinesCode(ds[i + 1..], d.pool);
    assert done.words + (d.words + rest.words) == done.words + d.words + rest.words;
  }

  lemma DefinesEnd(ds: seq<Define>, done: Coded)
    ensures Then(done, DefinesCode(ds[|ds|..], done.pool)) == Coded(done.words, done.pool, done.ok, done.near)
  {
    assert ds[|ds|..] == [];
    assert done.words + [] == done.words;
  }

  lemma ResolvedBlockCode(n: Node, sc: Scopes, iv: set<string>)
    requires n.Block?
    ensures var names := Declared(n);
      var ds := Defines(names, |n.params|, 0, Captured(n, iv), 0);
      var d := Prologue(ds, false, Pool([], []));
      var b := BodyCode(ResolveAll(n.body, Within(BlockScope(n, iv), sc), iv - Elems(names), |names|).0, d.pool);
      BlockCode(ResolveBlock(n, sc, iv), false) == Then(d, Then(b, One(ReturnTop, 0, b.pool)))
  {
    hide Prologue, BodyCode, ResolveAll, Captured, Defines;
  }

  lemma MakeBlockCode(blk: RBlock, p: Pool)
    ensures Code(MakeBlock(blk), p) == PushClosure(BlockCode(blk, false), blk.argCount, p)
  {
    hide BlockCode, PushClosure;
  }

  lemma BlockLiteralCode(n: Node, sc: Scopes, iv: set<string>, next: nat, p: Pool)
    requires n.Block? && sc.Within?
    ensures var c := BlockCode(ResolveBlock(n, sc, iv), false);
      && Resolved(n, sc, iv, next) == (MakeBlock(ResolveBlock(n, sc, iv)), next)
      && Code(MakeBlock(ResolveBlock(n, sc, iv)), p) ==
         Then(Coded([], p, c.ok, c.near), Instr(PushBlock, |p.blocks|, p.(blocks := p.blocks + [Packed(c, |n.params|)])))
  {
    hide BlockCode, ResolveAll, Captured, Defines, Instr, Code;
    MakeBlockCode(ResolveBlock(n, sc, iv), p);
  }

  // ----- What the code of an inlined send is made of -----

  lemma InlinedIs(n: Node, sc: Scopes, iv: set<string>, next: nat)
    requires sc.Within? && Inlined(n, iv)
    ensures Resolved(n, sc, iv, next) == ResolveInlined(n, sc, iv, next)
  {
    hide ResolveInlined, Inlined;
    InlinedSend(n, iv);
  }

  lemma InlinedSend(n: Node, iv: set<string>)
    requires Inlined(n, iv)
    ensures n.Send?
  {
  }

  lemma BranchesAre(e: RExpr, p: Pool)
    requires e.Cond? || e.CondElse?
    ensures var b := Parts(e, p);
      && Code(e, p) == Joined(b) && b.second.words != []
      && b.test == Code(e.test, p)
      && b.guard == Sym(AssertBoolOrDnu, SelectorConst(e.sel), b.test.pool)
      && b.jump.words == Wide(if e.Cond? then JumpUnless(e.onTrue) else JumpIfFalse, |b.first.words| + |b.skip.words|) && b.jump.ok
      && b.first == BodyCode(if e.Cond? then e.body else e.thn, b.guard.pool)
      && b.skip.words == Wide(Jump, |b.second.words|) && b.skip.ok
      && b.second == if e.Cond? then One(PushNilOp, 0, b.first.pool) else BodyCode(e.els, b.first.pool)
  {
    hide Code, Parts, Sym, Joined, BodyCode, Wide;
    PartsAre(e, p);
    IsJoined(e, p);
  }

  /** The words of a conditional once its two jumps are resolved. */
  lemma JoinedWords(before: seq<Word>, b: Branches)
    ensures before + b.test.words + b.guard.words + (b.jump.words + (b.first.words + (b.skip.words + b.second.words)))
         == before + Joined(b).words
  {
  }

  function TrueBranch(n: Node): (b: Node)
    requires InlineShapeOf(n) == InlineIfElse
    ensures b.Block? && b < n
  {
    if n.sel == IfFalseIfTrue then n.args.tail.head else n.args.head
  }

  function FalseBranch(n: Node): (b: Node)
    requires InlineShapeOf(n) == InlineIfElse
    ensures b.Block? && b < n
  {
    if n.sel == IfFalseIfTrue then n.args.head else n.args.tail.head
  }

  lemma IfIs(n: Node, sc: Scopes, iv: set<string>, next: nat)
    requires sc.Within? && Inlined(n, iv) && InlineShapeOf(n) == InlineIf
    ensures var (e, last) := ResolveInlined(n, sc, iv, next);
      var (t, n1) := Resolved(n.recv, sc, iv, next);
      e == Cond(n.sel, n.sel == IfTrue, t, ResolveAll(n.args.head.body, sc, iv, n1).0)
      && last == ResolveAll(n.args.head.body, sc, iv, n1).1
  {
    hide Resolved, ResolveAll, InnerAll;
  }

  lemma IfElseIs(n: Node, sc: Scopes, iv: set<string>, next: nat)
    requires sc.Within? && Inlined(n, iv) && InlineShapeOf(n) == InlineIfElse
    ensures var (e, last) := ResolveInlined(n, sc, iv, next);
      var (test, n1) := Resolved(n.recv, sc, iv, next);
      var (thn, n2) := ResolveAll(TrueBranch(n).body, sc, iv, n1);
      var (els, n3) := ResolveAll(FalseBranch(n).body, sc, iv, n2);
      e == CondElse(n.sel, test, thn, els) && last == n3
  {
    hide Resolved, ResolveAll, InnerAll;
  }

  lemma WhileNodeIs(n: Node, sc: Scopes, iv: set<string>, next: nat)
    requires sc.Within? && Inlined(n, iv) && InlineShapeOf(n) == InlineWhile
    ensures n.recv.Block? && n.args.More? && n.args.head.Block?
    ensures var (e, last) := ResolveInlined(n, sc, iv, next);
      var (test, n1) := ResolveAll(n.recv.body, sc, iv, next);
      var (body, n2) := ResolveAll(n.args.head.body, sc, iv, n1);
      e == Loop(n.sel, n.sel == WhileTrue, test, body) && last == n2
  {
    hide ResolveAll, InnerAll;
  }

  lemma LoopFails(l: LoopParts)
    ensures LoopCode(l).ok ==> Open(l).ok
  {
    hide Closed, BackOperand;
  }

  lemma OpenFails(l: LoopParts)
    ensures Open(l).ok == (l.head.ok && l.body.ok && l.tail.ok)
  {
  }

  lemma OpenGrown(m: BytecodeModule, before: seq<Word>, l: LoopParts)
    requires m.words == before + l.head.words + [Word(l.exit, 0)] + l.body.words + l.tail.words && PoolOf(m) == l.tail.pool
    ensures Grown(m, before, Open(l))
  {
    assert before + (l.head.words + ([Word(l.exit, 0)] + (l.body.words + l.tail.words)))
        == before + l.head.words + [Word(l.exit, 0)] + l.body.words + l.tail.words;
  }

  function GuardCode(sel: Selector, test: RExprs, p: Pool): Coded {
    var g := BodyCode(test, p.(consts := Interned(p.consts, SelectorConst(sel))));
    Then(g, Instr(AssertBoolOrDnu, Find(p.consts, SelectorConst(sel)), g.pool))
  }

  lemma WhileIsGuarded(e: RExpr, p: Pool)
    requires e.Loop?
    ensures var l := WhileParts(e, p);
      && l.head == GuardCode(e.sel, e.guard, p) && l.exit == JumpUnless(e.onTrue)
      && l.body == BodyCode(e.body, l.head.pool) && l.tail == One(Pop, 0, l.body.pool)
  {
    hide Code, LoopCode, WhileParts, BodyCode, Wide, Interned, Find;
    WhileIs(e, p);
  }

  /** The resolved body of a to:do: and the slot after it; receiver and bound come first. */
  function LoopBody(n: Node, sc: Scopes, iv: set<string>, next: nat, slotI: nat): (RExprs, nat)
    requires sc.Within? && InlineShapeOf(n) == InlineToDo
  {
    var n2 := Resolved(n.args.head, sc, iv, Resolved(n.recv, sc, iv, next).1).1;
    ResolveAll(ToDoBody(n).body, LoopScope(sc, ToDoBody(n).params[0], slotI), iv - {ToDoBody(n).params[0]}, n2)
  }

  lemma ToDoIs(n: Node, sc: Scopes, iv: set<string>, next: nat)
    requires sc.Within? && Inlined(n, iv) && InlineShapeOf(n) == InlineToDo
    ensures var (e, last) := ResolveInlined(n, sc, iv, next);
      var (start, n1) := Resolved(n.recv, sc, iv, next + 2);
      var (stop, n2) := Resolved(n.args.head, sc, iv, n1);
      var (body, n3) := LoopBody(n, sc, iv, next + 2, next);
      e == CountLoop(next, next + 1, start, stop, body) && last == n3
  {
    hide Resolved, ResolveAll, InnerAll;
  }

  lemma ToDoCode(e: RExpr, p: Pool)
    requires e.CountLoop?
    ensures var a := Setup(e, p);
      var c := LoopCode(CountParts(e, a.pool));
      Code(e, p) == Then(a, c) && Code(e, p).ok == (a.ok && c.ok)
  {
    hide Code, Setup, LoopCode, CountParts;
    SetupIs(e, p);
  }

  lemma GrownPool(m: BytecodeModule, before: seq<Word>, c: Coded)
    requires Grown(m, before, c)
    ensures PoolOf(m) == c.pool && m.words == before + c.words
  {
  }

  lemma FourParts(w: seq<Word>, a: seq<Word>, b: seq<Word>, c: seq<Word>, d: seq<Word>)
    ensures w + a + b + c + d == w + (a + (b + (c + d)))
  {
  }

  lemma FiveParts(w: seq<Word>, a: seq<Word>, b: seq<Word>, c: seq<Word>, d: seq<Word>, e: seq<Word>)
    ensures w + a + b + c + d + e == w + (a + (b + (c + (d + e))))
  {
  }

  lemma OpenCountGrown(m: BytecodeModule, before: seq<Word>, l: LoopParts, inc: Coded)
    requires l.tail == Then(One(Pop, 0, l.body.pool), inc) && PoolOf(m) == inc.pool
    requires m.words == before + l.head.words + [Word(l.exit, 0)] + l.body.words + [Word(Pop, 0)] + inc.words
    ensures Grown(m, before, Open(l))
  {
    assert m.words == before + l.head.words + [Word(l.exit, 0)] + l.body.words + ([Word(Pop, 0)] + inc.words);
    OpenGrown(m, before, l);
  }

  /** Is the last statement `^ e`? */
  predicate LastIsReturn(ns: Nodes) {
    match ns
    case NoNodes => false
    case More(h, NoNodes) => h.Return?
    case More(_, t) => LastIsReturn(t)
  }

  lemma {:induction false} LastStaysReturn(ns: Nodes, sc: Scopes, iv: set<string>, next: nat)
    requires sc.Within?
    ensures EndsWithReturn(ResolveAll(ns, sc, iv, next).0) == LastIsReturn(ns)
    ensures ResolveAll(ns, sc, iv, next).0.RNil? == ns.NoNodes?
  {
    hide Where, Inlined;
    if ns.More? {
      LastStaysReturn(ns.tail, sc, iv, Resolved(ns.head, sc, iv, next).1);
      ReturnStays(ns.head, sc, iv, next);
    }
  }

  lemma ReturnStays(n: Node, sc: Scopes, iv: set<string>, next: nat)
    requires sc.Within?
    ensures Resolved(n, sc, iv, next).0.ReturnFromHome? == n.Return?
  {
    hide Where;
  }

  lemma MethodCodeIs(d: Method, ivars: set<string>)
    ensures var names, blk := d.params + d.temps, ResolveMethod(d, ivars);
      && blk.argCount == 1 + |d.params|
      && blk.defines == Defines(names, |d.params|, 1, MethodCaptured(d, ivars), 0)
      && blk.body == ResolveAll(d.body, Within(MethodScope(d, ivars), NoScope), ivars - Elems(names), 1 + |names|).0
      && EndsWithReturn(blk.body) == LastIsReturn(d.body) && blk.body.RNil? == d.body.NoNodes?
  {
    hide ResolveAll, Defines, MethodCaptured, EndsWithReturn, LastIsReturn;
    var names := d.params + d.temps;
    LastStaysReturn(d.body, Within(MethodScope(d, ivars), NoScope), ivars - Elems(names), 1 + |names|);
  }

  lemma MethodFails(blk: RBlock)
    ensures var pro := Prologue(blk.defines, true, Pool([], []));
      BlockCode(blk, true).ok ==> pro.ok && BodyCode(blk.body, pro.pool).ok
  {
    hide Prologue, BodyCode, EndsWithReturn;
  }

  /** The module is complete once its trailer is there. */
  lemma Trailer(m: BytecodeModule, pro: Coded, b: Coded, blk: RBlock)
    requires pro == Prologue(blk.defines, true, Pool([], [])) && b == BodyCode(blk.body, pro.pool) && m.argCount == blk.argCount
    requires PoolOf(m) == b.pool && pro.ok && b.ok
    requires m.words == pro.words + b.words +
      (if EndsWithReturn(blk.body) then [] else (if blk.body.RNil? then [] else [Word(Pop, 0)]) + [Word(PushLocal, 0)] + [Word(Op.Return, 0)])
    ensures BlockCode(blk, true).ok && m.Finished() == Assembled(blk, true)
  {
    hide Prologue, BodyCode, EndsWithReturn;
    var end := if EndsWithReturn(blk.body) then [] else (if blk.body.RNil? then [] else [Word(Pop, 0)]) + [Word(PushLocal, 0)] + [Word(Op.Return, 0)];
    assert pro.words + (b.words + end) == pro.words + b.words + end;
    assert [Word(Pop, 0)] + ([Word(PushLocal, 0)] + [Word(Op.Return, 0)]) == [Word(Pop, 0)] + [Word(PushLocal, 0)] + [Word(Op.Return, 0)];
    assert [] + ([Word(PushLocal, 0)] + [Word(Op.Return, 0)]) == [] + [Word(PushLocal, 0)] + [Word(Op.Return, 0)];
  }
}
