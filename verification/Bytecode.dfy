/** Two-byte instruction words with EXTEND-widened operands. Positions count words: a byte
    position in the source is twice the position here. */
module Bytecode {
  import opened Syntax

  datatype Op =
    | PushConst | PushLocal | StoreLocal | Dup | Pop
    | PushSelfOp | PushNilOp | PushTrue | PushFalse
    | SendUnary | SendKeyword
    | Jump | JumpIfTrue | JumpIfFalse | JumpBack
    | Return | ReturnTop
    | PushBlock | PushCaptured | StoreCaptured | DefineCaptured | MakeCaptured
    | PushInstVar | StoreInstVar
    | BinInt(op: BinOp)
    | AssertBoolOrDnu
    | Extend

  type byte = b: nat | b < 256

  datatype Word = Word(op: Op, arg: byte)

  datatype Const = IntConst(n: int) | SelectorConst(sel: Selector) | OperatorConst(bin: BinOp) | NameConst(name: string)

  datatype Module = Module(words: seq<Word>, consts: seq<Const>, blocks: seq<Module>, argCount: nat)

  /** The first place a constant stands at, or the length of the pool. */
  function Find(consts: seq<Const>, c: Const): (i: nat)
    ensures i <= |consts| && (i < |consts| ==> consts[i] == c)
    ensures forall j :: 0 <= j < i ==> consts[j] != c
  {
    if consts == [] || consts[0] == c then 0 else 1 + Find(consts[1..], c)
  }

  /** A pool in which `c` stands. */
  function Interned(consts: seq<Const>, c: Const): (r: seq<Const>)
    ensures consts <= r && Find(consts, c) < |r| && r[Find(consts, c)] == c
  {
    if c in consts then consts else consts + [c]
  }

  const MAX_OPERAND: nat := 0xFF_FFFF

  /** EXTEND words an operand needs. */
  function Prefixes(arg: nat): (k: nat)
    ensures k <= 2
  {
    if arg > 0xFFFF then 2 else if arg > 0xFF then 1 else 0
  }

  /** An instruction with exactly `k` EXTEND words; they carry the higher bytes, most significant
      first, whether or not the operand needs them. */
  function WideWith(op: Op, arg: nat, k: nat): (w: seq<Word>)
    requires k <= 2
    ensures |w| == k + 1
  {
    var low := [Word(op, arg % 256)];
    if k == 0 then low
    else if k == 1 then [Word(Extend, arg / 256 % 256)] + low
    else [Word(Extend, arg / 65536 % 256), Word(Extend, arg / 256 % 256)] + low
  }

  function Wide(op: Op, arg: nat): (w: seq<Word>)
    ensures 1 <= |w| == Prefixes(arg) + 1 <= 3
  {
    WideWith(op, arg, Prefixes(arg))
  }

  datatype Decoded = Decoded(op: Op, arg: nat, next: nat) | Truncated

  /** The engine's fetch: each EXTEND shifts the operand left by a byte. */
  function Decode(words: seq<Word>, pc: nat, high: nat): Decoded
    decreases |words| - pc
  {
    if pc >= |words| then Truncated
    else
      var arg := high * 256 + words[pc].arg;
      if words[pc].op == Extend then Decode(words, pc + 1, arg) else Decoded(words[pc].op, arg, pc + 1)
  }

  predicate CodeAt(words: seq<Word>, p: nat, code: seq<Word>) {
    p + |code| <= |words| && words[p..p + |code|] == code
  }

  lemma CodeAtParts(words: seq<Word>, p: nat, a: seq<Word>, b: seq<Word>)
    requires CodeAt(words, p, a + b)
    ensures CodeAt(words, p, a) && CodeAt(words, p + |a|, b)
  {
    assert words[p..p + |a|] == (a + b)[..|a|];
    assert words[p + |a|..p + |a| + |b|] == (a + b)[|a|..];
  }

  lemma DecodeExtend(words: seq<Word>, p: nat, high: nat, w: Word)
    requires p < |words| && words[p] == w
    ensures Decode(words, p, high) ==
      if w.op == Extend then Decode(words, p + 1, high * 256 + w.arg) else Decoded(w.op, high * 256 + w.arg, p + 1)
  {
  }

  /** The bytes of up to three words put together. */
  lemma DecodeBytes(words: seq<Word>, p: nat, w: seq<Word>)
    requires 1 <= |w| <= 3 && CodeAt(words, p, w) && w[|w| - 1].op != Extend
    requires forall i :: 0 <= i < |w| - 1 ==> w[i].op == Extend
    ensures Decode(words, p, 0) == Decoded(w[|w| - 1].op,
              if |w| == 1 then w[0].arg else if |w| == 2 then w[0].arg * 256 + w[1].arg
              else (w[0].arg * 256 + w[1].arg) * 256 + w[2].arg, p + |w|)
  {
    assert words[p..p + |w|][0] == words[p];
    assert |w| > 1 ==> words[p..p + |w|][1] == words[p + 1];
    assert |w| > 2 ==> words[p..p + |w|][2] == words[p + 2];
    hide Decode, CodeAt;
    DecodeExtend(words, p, 0, w[0]);
    if |w| > 1 { DecodeExtend(words, p + 1, w[0].arg, w[1]); }
    if |w| > 2 { DecodeExtend(words, p + 2, w[0].arg * 256 + w[1].arg, w[2]); }
  }

  /** Decoding what was encoded: any operand that fits the EXTEND words it was given. */
  lemma DecodeWide(words: seq<Word>, p: nat, op: Op, arg: nat, k: nat)
    requires op != Extend && k <= 2 && Prefixes(arg) <= k && arg <= MAX_OPERAND
    requires CodeAt(words, p, WideWith(op, arg, k))
    ensures Decode(words, p, 0) == Decoded(op, arg, p + k + 1)
  {
    hide Decode, CodeAt;
    DecodeBytes(words, p, WideWith(op, arg, k));
    BytesOf(arg);
  }

  lemma BytesOf(arg: nat)
    ensures arg <= 0xFF ==> arg % 256 == arg
    ensures arg <= 0xFFFF ==> arg / 256 % 256 * 256 + arg % 256 == arg
    ensures arg <= MAX_OPERAND ==> (arg / 65536 % 256 * 256 + arg / 256 % 256) * 256 + arg % 256 == arg
  {
    assert arg / 256 / 256 == arg / 65536;
  }

  const OPERAND_RANGE := 0x100_0000

  /** Past 24 bits the encoding silently drops the high bits. */
  lemma WideWraps(words: seq<Word>, p: nat, op: Op, arg: nat)
    requires op != Extend && arg > MAX_OPERAND && CodeAt(words, p, Wide(op, arg))
    ensures Decode(words, p, 0) == Decoded(op, arg % OPERAND_RANGE, p + |Wide(op, arg)|)
  {
    hide Decode, CodeAt;
    DecodeBytes(words, p, Wide(op, arg));
    LowBytes(arg);
  }

  lemma LowBytes(arg: nat)
    ensures (arg / 65536 % 256 * 256 + arg / 256 % 256) * 256 + arg % 256 == arg % OPERAND_RANGE
  {
    var high, mid, low := arg / 65536, arg / 256 % 256, arg % 256;
    assert arg == high * 65536 + mid * 256 + low;
    assert high == high / 256 * 256 + high % 256;
  }

  /** An instruction decodes to its operand exactly when that fits 24 bits. */
  lemma WideDecodesExactly(words: seq<Word>, p: nat, op: Op, arg: nat)
    requires op != Extend && CodeAt(words, p, Wide(op, arg))
    ensures Decode(words, p, 0) == Decoded(op, arg, p + |Wide(op, arg)|) <==> arg <= MAX_OPERAND
    ensures Decode(words, p, 0) == Decoded(op, arg % OPERAND_RANGE, p + |Wide(op, arg)|)
  {
    hide Decode, CodeAt;
    if arg <= MAX_OPERAND { DecodeWide(words, p, op, arg, Prefixes(arg)); } else { WideWraps(words, p, op, arg); }
  }
}
