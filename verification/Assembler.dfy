/** The module under construction, and the two operations that fix up its jumps in place. */
module Assembler {
  import opened Syntax
  import opened Bytecode
  import opened Layout

  class BytecodeModule {
    var words: seq<Word>
    var consts: seq<Const>
    var symbolIndex: map<Const, nat>
    var blocks: seq<Module>
    const argCount: nat

    ghost predicate Valid()
      reads this
    {
      && (forall c | c in symbolIndex :: symbolIndex[c] < |consts| && consts[symbolIndex[c]] == c && !c.IntConst?)
      && (forall i | 0 <= i < |consts| && !consts[i].IntConst? :: consts[i] in symbolIndex && symbolIndex[consts[i]] == i)
    }

    constructor (argCount: nat)
      ensures Valid() && words == [] && consts == [] && blocks == [] && this.argCount == argCount
    {
      words, consts, symbolIndex, blocks := [], [], map[], [];
      this.argCount := argCount;
    }

    method Emit(op: Op, arg: byte)
      requires Valid()
      modifies `words
      ensures Valid() && words == old(words) + [Word(op, arg)]
    {
      words := words + [Word(op, arg)];
    }

    /** Refuses an operand of more than 24 bits. */
    method EmitWide(op: Op, arg: nat) returns (ok: bool)
      requires Valid()
      modifies `words
      ensures Valid() && ok == (arg <= MAX_OPERAND)
      ensures words == if ok then old(words) + Wide(op, arg) else old(words)
    {
      if arg > 0xFF_FFFF { return false; }
      if arg > 0xFFFF {
        Emit(Extend, arg / 65536 % 256);
        Emit(Extend, arg / 256 % 256);
      } else if arg > 0xFF {
        Emit(Extend, arg / 256 % 256);
      }
      Emit(op, arg % 256);
      return true;
    }

    method InsertExtendPrefixes(p: nat, count: nat)
      requires Valid() && p < |words|
      modifies `words
      ensures Valid() && words == Inserted(old(words), p, count)
    {
      var prefix: seq<Word> := [];
      for i := 0 to count
        invariant prefix == Blank(i)
      {
        prefix := prefix + [Word(Extend, 0)];
      }
      words := words[..p] + prefix + words[p..];
    }

    /** Fills in the operand of the instruction at `p`, which has `prefixes` EXTEND words. */
    method PatchWideArg(p: nat, prefixes: nat, arg: nat) returns (ok: bool)
      requires Valid() && prefixes <= 2 && p + prefixes < |words|
      requires forall x :: p <= x < p + prefixes ==> words[x].op == Extend
      modifies `words
      ensures Valid() && ok == (Prefixes(arg) <= prefixes)
      ensures words == if ok then old(words[..p] + WideWith(words[p + prefixes].op, arg, prefixes) + words[p + prefixes + 1..])
                       else old(words)
    {
      if Prefixes(arg) > prefixes { return false; }
      ghost var was := words;
      for i := 0 to prefixes
        invariant |words| == |was|
        invariant forall x :: 0 <= x < |was| && !(p <= x < p + i) ==> words[x] == was[x]
        invariant forall x :: p <= x < p + i ==> words[x] == HighWord(p + prefixes - x, arg)
        invariant forall x :: p <= x < p + prefixes ==> words[x].op == Extend
      {
        var high := if prefixes - i == 2 then arg / 65536 else arg / 256;
        words := words[p + i := words[p + i].(arg := high % 256)];
      }
      words := words[p + prefixes := words[p + prefixes].(arg := arg % 256)];
      PatchedParts(was, words, p, prefixes, arg);
      return true;
    }

    /** An integer literal always takes a constant of its own. */
    method AddInteger(n: int) returns (i: nat)
      requires Valid()
      modifies `consts
      ensures Valid() && consts == old(consts) + [IntConst(n)] && i == |old(consts)|
    {
      consts := consts + [IntConst(n)];
      return |consts| - 1;
    }

    /** A symbol is kept once. */
    method InternSymbol(c: Const) returns (i: nat)
      requires Valid() && !c.IntConst?
      modifies `consts, `symbolIndex
      ensures Valid() && consts == Interned(old(consts), c) && i == Find(old(consts), c)
    {
      if c in symbolIndex { return symbolIndex[c]; }
      consts := consts + [c];
      symbolIndex := symbolIndex[c := |consts| - 1];
      return |consts| - 1;
    }

    method AddBlockModule(b: Module) returns (i: nat)
      requires Valid()
      modifies `blocks
      ensures Valid() && blocks == old(blocks) + [b] && i == |old(blocks)|
    {
      blocks := blocks + [b];
      return |blocks| - 1;
    }

    function Finished(): (m: Module)
      reads this
    {
      Module(words, consts, blocks, argCount)
    }
  }

  /** The EXTEND word `behind` words in front of the opcode word of an operand. */
  function HighWord(behind: nat, arg: nat): Word {
    Word(Extend, if behind == 2 then arg / 65536 % 256 else arg / 256 % 256)
  }

  lemma PatchedParts(was: seq<Word>, now: seq<Word>, p: nat, k: nat, arg: nat)
    requires k <= 2 && p + k < |was| == |now|
    requires forall x :: 0 <= x < |was| && !(p <= x <= p + k) ==> now[x] == was[x]
    requires forall x :: p <= x < p + k ==> now[x] == HighWord(p + k - x, arg)
    requires now[p + k] == Word(was[p + k].op, arg % 256)
    ensures now == was[..p] + WideWith(was[p + k].op, arg, k) + was[p + k + 1..]
  {
    var code := WideWith(was[p + k].op, arg, k);
    assert now[p..p + k + 1] == code by {
      if k == 2 { assert now[p] == code[0] && now[p + 1] == code[1]; }
      if k == 1 { assert now[p] == code[0]; }
    }
    assert now[..p] == was[..p] && now[p + k + 1..] == was[p + k + 1..];
    assert now == now[..p] + now[p..p + k + 1] + now[p + k + 1..];
  }

  // ----- Resolving forward jumps -----

  function Insert(j: ForwardJump, js: seq<ForwardJump>): (r: seq<ForwardJump>)
    ensures multiset(r) == multiset(js) + multiset{j}
  {
    if js == [] || j.pos > js[0].pos then [j] + js
    else
      assert js == [js[0]] + js[1..];
      [js[0]] + Insert(j, js[1..])
  }

  /** The jumps, the last in the code first. */
  function Descending(js: seq<ForwardJump>): (r: seq<ForwardJump>)
    ensures multiset(r) == multiset(js)
  {
    if js == [] then []
    else
      assert js == [js[0]] + js[1..];
      Insert(js[0], Descending(js[1..]))
  }

  predicate Decreasing(js: seq<ForwardJump>) {
    forall i, j :: 0 <= i < j < |js| ==> js[j].pos < js[i].pos
  }

  lemma {:induction false} InsertOrders(j: ForwardJump, js: seq<ForwardJump>)
    requires Decreasing(js) && forall i :: 0 <= i < |js| ==> js[i].pos != j.pos
    ensures Decreasing(Insert(j, js))
  {
    if js != [] && j.pos < js[0].pos {
      InsertOrders(j, js[1..]);
      var r := Insert(j, js[1..]);
      forall k | 0 <= k < |r| ensures r[k].pos < js[0].pos {
        assert r[k] in multiset(js[1..]) + multiset{j};
      }
    }
  }

  /** Whatever order jumps are given in, they are resolved last first. */
  lemma {:induction false} DescendingOrders(js: seq<ForwardJump>)
    requires forall i, j :: 0 <= i < j < |js| ==> js[i].pos != js[j].pos
    ensures Decreasing(Descending(js))
  {
    if js != [] {
      DescendingOrders(js[1..]);
      var r := Descending(js[1..]);
      forall k | 0 <= k < |r| ensures r[k].pos != js[0].pos {
        assert r[k] in multiset(js[1..]);
      }
      InsertOrders(js[0], r);
    }
  }

  lemma WidenTwice(w: seq<Word>, p: nat, k: nat, arg: nat)
    requires p < |w| && k <= 2
    ensures var v := Inserted(w, p, k);
      && (forall x :: p <= x < p + k ==> v[x].op == Extend)
      && v[..p] + WideWith(v[p + k].op, arg, k) + v[p + k + 1..] == Widened(w, p, arg, k)
  {
    hide WideWith;
    var v := Inserted(w, p, k);
    assert v[p + k] == w[p] && v[..p] == w[..p] && v[p + k + 1..] == w[p + 1..];
  }

  /** Widens one jump and writes its operand. */
  method ResolveJump(m: BytecodeModule, j: ForwardJump) returns (prefixes: nat)
    requires m.Valid() && j.pos < j.target <= |m.words|
    modifies m`words
    ensures m.Valid() && prefixes == Prefixes(Offset(j))
    ensures m.words == Widened(old(m.words), j.pos, Offset(j), prefixes)
  {
    // EXTEND words put in front of the jump do not change its distance to the target.
    var offset := j.target - (j.pos + 1);
    prefixes := Prefixes(offset);
    WidenTwice(m.words, j.pos, prefixes, offset);
    m.InsertExtendPrefixes(j.pos, prefixes);
    var ok := m.PatchWideArg(j.pos, prefixes, offset);
  }

  /** Once the jump at `p` is `k` words wider, the jumps still to come reach that much further. */
  method MoveTargets(jumps: seq<ForwardJump>, i: nat, p: nat, k: nat) returns (js: seq<ForwardJump>)
    requires i < |jumps|
    ensures |js| == |jumps| && js[i + 1..] == Moved(jumps[i + 1..], p, k)
  {
    js := jumps;
    var x := i + 1;
    while x < |js|
      invariant i < x <= |js| == |jumps|
      invariant forall y :: i < y < x ==> js[y] == ForwardJump(jumps[y].pos, if jumps[y].target > p then jumps[y].target + k else jumps[y].target)
      invariant forall y :: x <= y < |js| ==> js[y] == jumps[y]
    {
      if js[x].target > p {
        js := js[x := ForwardJump(js[x].pos, js[x].target + k)];
      }
      x := x + 1;
    }
  }

  /** The operand of each jump counts the words from the one after it to its target. */
  method ResolveForwardJumps(m: BytecodeModule, jumps: seq<ForwardJump>)
    requires m.Valid() && Pending(m.words, Descending(jumps))
    modifies m`words
    ensures m.Valid() && m.words == Relaxed(old(m.words), Descending(jumps))
  {
    hide Relaxed, WideWith, Descending, Pending, Widened;
    var js := Descending(jumps);
    var i := 0;
    assert js[0..] == js;
    while i < |js|
      invariant m.Valid() && i <= |js|
      invariant Pending(m.words, js[i..]) && Relaxed(m.words, js[i..]) == Relaxed(old(m.words), Descending(jumps))
    {
      ghost var rest, was := js[i..], m.words;
      assert rest[0] == js[i] && rest[1..] == js[i + 1..];
      RelaxedStep(was, rest);
      var prefixes := ResolveJump(m, js[i]);
      js := MoveTargets(js, i, js[i].pos, prefixes);
      i := i + 1;
    }
    assert js[i..] == [];
    NothingPending(m.words);
  }

  lemma NothingPending(w: seq<Word>)
    ensures Pending(w, []) && Relaxed(w, []) == w
  {
  }

  /** The loop ends: the least operand that counts the JUMP_BACK and its own EXTEND words. */
  method FindBack(span: nat) returns (back: nat)
    ensures back == BackOperand(span)
  {
    back := span + 1;
    while back != span + 1 + Prefixes(back)
      invariant span + 1 <= back <= BackOperand(span)
      decreases BackOperand(span) - back
    {
      BackGrows(span, back);
      back := span + 1 + Prefixes(back);
    }
  }

  /** Fails when the loop is too long for a 24-bit JUMP_BACK. */
  method CloseLoop(m: BytecodeModule, loopStart: nat, exitPos: nat) returns (ok: bool)
    requires m.Valid() && loopStart <= exitPos < |m.words|
    modifies m`words
    ensures m.Valid()
    ensures ok == (BackOperand(|old(m.words)| + ExitWidth(old(m.words), exitPos) - loopStart) <= MAX_OPERAND)
    ensures ok ==> m.words == Closed(old(m.words), loopStart, exitPos)
  {
    hide WideWith, Widened, BackOperand;
    ghost var was := m.words;
    var bodyWords := |m.words| - (exitPos + 1);
    var prefixes := Prefixes(bodyWords + 3);
    m.InsertExtendPrefixes(exitPos, prefixes);
    var back := FindBack(|m.words| - loopStart);
    ok := m.EmitWide(JumpBack, back);
    if !ok { return; }
    var jumpWord := exitPos + prefixes;
    var out := |m.words| - (jumpWord + 1);
    ClosePatch(was, exitPos, prefixes, out, Wide(JumpBack, back));
    var fits := m.PatchWideArg(exitPos, prefixes, out);
  }

  lemma ClosePatch(was: seq<Word>, exit: nat, k: nat, out: nat, tail: seq<Word>)
    requires exit < |was| && k <= 2
    ensures var v := Inserted(was, exit, k) + tail;
      && (forall x :: exit <= x < exit + k ==> v[x].op == Extend)
      && v[..exit] + WideWith(v[exit + k].op, out, k) + v[exit + k + 1..] == Widened(was, exit, out, k) + tail
  {
    hide WideWith;
    var open := Inserted(was, exit, k);
    var v := open + tail;
    WidenTwice(was, exit, k, out);
    assert forall x :: 0 <= x < |open| ==> v[x] == open[x];
    assert v[..exit] == was[..exit] && v[exit + k] == was[exit] && v[exit + k + 1..] == was[exit + 1..] + tail;
  }

  lemma BackGrows(span: nat, back: nat)
    requires span + 1 <= back <= BackOperand(span) && back != span + 1 + Prefixes(back)
    ensures back < span + 1 + Prefixes(back) <= BackOperand(span)
  {
  }
}
