/** Laying out jumps: a forward jump is emitted as one word before its distance is known and is
    widened in place afterwards, which moves the words behind it. */
module Layout {
  import opened Bytecode

  datatype ForwardJump = ForwardJump(pos: nat, target: nat)

  /** EXTEND words of operand 0, as inserted in front of a jump before it is patched. */
  function Blank(count: nat): seq<Word> { seq(count, _ => Word(Extend, 0)) }

  function Inserted(w: seq<Word>, p: nat, count: nat): seq<Word>
    requires p <= |w|
  {
    w[..p] + Blank(count) + w[p..]
  }

  /** One jump given its operand and the EXTEND words the operand takes. */
  function Widened(w: seq<Word>, p: nat, offset: nat, k: nat): (r: seq<Word>)
    requires p < |w| && k <= 2
    ensures |r| == |w| + k
  {
    w[..p] + WideWith(w[p].op, offset, k) + w[p + 1..]
  }

  function Offset(j: ForwardJump): nat
    requires j.pos < j.target
  {
    j.target - (j.pos + 1)
  }

  /** The targets past a widened jump move with the words behind it. */
  function Moved(js: seq<ForwardJump>, p: nat, k: nat): (r: seq<ForwardJump>)
    ensures |r| == |js|
    ensures forall i :: 0 <= i < |js| ==>
      r[i] == ForwardJump(js[i].pos, if js[i].target > p then js[i].target + k else js[i].target)
  {
    seq(|js|, i requires 0 <= i < |js| =>
      ForwardJump(js[i].pos, if js[i].target > p then js[i].target + k else js[i].target))
  }

  /** Jumps of `w` listed last first, each with a target behind it inside the code. */
  predicate Pending(w: seq<Word>, js: seq<ForwardJump>) {
    && (forall i :: 0 <= i < |js| ==> js[i].pos < js[i].target <= |w| && w[js[i].pos].op != Extend)
    && (forall i, j :: 0 <= i < j < |js| ==> js[j].pos < js[i].pos)
  }

  /** What resolving a list of pending jumps makes of the words. */
  function Relaxed(w: seq<Word>, js: seq<ForwardJump>): seq<Word>
    requires Pending(w, js)
    decreases |js|
  {
    if js == [] then w
    else
      var k := Prefixes(Offset(js[0]));
      PendingMoved(w, js);
      Relaxed(Widened(w, js[0].pos, Offset(js[0]), k), Moved(js[1..], js[0].pos, k))
  }

  lemma PendingMoved(w: seq<Word>, js: seq<ForwardJump>)
    requires Pending(w, js) && js != []
    ensures var k := Prefixes(Offset(js[0]));
      Pending(Widened(w, js[0].pos, Offset(js[0]), k), Moved(js[1..], js[0].pos, k))
  {
    var k := Prefixes(Offset(js[0]));
    var r := Widened(w, js[0].pos, Offset(js[0]), k);
    assert forall x :: 0 <= x < js[0].pos ==> r[x] == w[x];
  }

  /** How far the word at `x` moves: the EXTEND words put in front of the jumps before it. */
  function Shift(js: seq<ForwardJump>, x: nat): nat
    requires forall i :: 0 <= i < |js| ==> js[i].pos < js[i].target
    decreases |js|
  {
    if js == [] then x
    else
      var k := Prefixes(Offset(js[0]));
      Shift(Moved(js[1..], js[0].pos, k), if x > js[0].pos then x + k else x)
  }

  /** Words keep their order, and two words drift apart only by a jump between them. */
  lemma {:induction false} ShiftGap(js: seq<ForwardJump>, x: nat, y: nat)
    requires forall i :: 0 <= i < |js| ==> js[i].pos < js[i].target
    requires forall i, j :: 0 <= i < j < |js| ==> js[j].pos < js[i].pos
    requires x <= y
    ensures x <= Shift(js, x) && Shift(js, y) - Shift(js, x) >= y - x
    ensures (forall i :: 0 <= i < |js| ==> !(x <= js[i].pos < y)) ==> Shift(js, y) - Shift(js, x) == y - x
    decreases |js|
  {
    if js != [] {
      var p, k := js[0].pos, Prefixes(Offset(js[0]));
      var rest := Moved(js[1..], p, k);
      var x1 := if x > p then x + k else x;
      var y1 := if y > p then y + k else y;
      ShiftGap(rest, x1, y1);
      if forall i :: 0 <= i < |js| ==> !(x <= js[i].pos < y) {
        assert !(x <= js[0].pos < y);
        forall i | 0 <= i < |rest| ensures !(x1 <= rest[i].pos < y1) {
          assert rest[i].pos == js[i + 1].pos;
        }
      }
    }
  }

  lemma {:induction false} RelaxedLength(w: seq<Word>, js: seq<ForwardJump>)
    requires Pending(w, js)
    ensures |Relaxed(w, js)| == Shift(js, |w|)
    decreases |js|
  {
    hide WideWith;
    if js != [] {
      var p, k := js[0].pos, Prefixes(Offset(js[0]));
      PendingMoved(w, js);
      RelaxedLength(Widened(w, p, Offset(js[0]), k), Moved(js[1..], p, k));
    }
  }

  lemma ShiftBounds(w: seq<Word>, js: seq<ForwardJump>, x: nat, y: nat)
    requires Pending(w, js) && x <= y <= |w|
    ensures x <= Shift(js, x) && Shift(js, y) - Shift(js, x) >= y - x
    ensures (forall i :: 0 <= i < |js| ==> !(x <= js[i].pos < y)) ==> Shift(js, y) - Shift(js, x) == y - x
    ensures Shift(js, y) <= |Relaxed(w, js)|
  {
    hide Relaxed, Shift;
    ShiftGap(js, x, y);
    ShiftGap(js, y, |w|);
    RelaxedLength(w, js);
  }

  /** Resolving jumps moves every other word and changes none of them. */
  lemma {:induction false} RestMoves(w: seq<Word>, js: seq<ForwardJump>, x: nat)
    requires Pending(w, js) && x < |w| && forall i :: 0 <= i < |js| ==> js[i].pos != x
    ensures Shift(js, x) < |Relaxed(w, js)| && Relaxed(w, js)[Shift(js, x)] == w[x]
    decreases |js|
  {
    if js != [] {
      var p, k := js[0].pos, Prefixes(Offset(js[0]));
      var rest := Moved(js[1..], p, k);
      PendingMoved(w, js);
      var x1 := if x > p then x + k else x;
      forall i | 0 <= i < |rest| ensures rest[i].pos != x1 {
        assert rest[i].pos == js[i + 1].pos;
      }
      RestMoves(Widened(w, p, Offset(js[0]), k), rest, x1);
    }
  }

  /** Code with no pending jump inside it moves as one piece, and unchanged. */
  lemma CodeMoves(w: seq<Word>, js: seq<ForwardJump>, x: nat, code: seq<Word>)
    requires Pending(w, js) && CodeAt(w, x, code) && code != []
    requires forall i :: 0 <= i < |js| ==> !(x <= js[i].pos < x + |code|)
    ensures CodeAt(Relaxed(w, js), Shift(js, x), code)
  {
    hide Relaxed, Shift;
    var r := Relaxed(w, js);
    ShiftBounds(w, js, x, x + |code|);
    ShiftBounds(w, js, x + |code|, |w|);
    forall y: nat | y < |code| ensures r[Shift(js, x) + y] == code[y] {
      ShiftBounds(w, js, x, x + y);
      RestMoves(w, js, x + y);
      assert w[x..x + |code|][y] == w[x + y];
    }
  }

  /** Every resolved jump sits where its word moved to, is exactly as wide as its operand needs,
      and its operand leads to where its target moved to. */
  predicate Lands(r: seq<Word>, op: Op, at: nat, to: nat, k: nat) {
    && k <= 2 && at + k + 1 <= to <= |r| && k == Prefixes(to - (at + k + 1))
    && CodeAt(r, at, WideWith(op, to - (at + k + 1), k))
  }

  lemma {:induction false} JumpsLand(w: seq<Word>, js: seq<ForwardJump>, i: nat) returns (k: nat)
    requires Pending(w, js) && i < |js|
    ensures Lands(Relaxed(w, js), w[js[i].pos].op, Shift(js, js[i].pos), Shift(js, js[i].target), k)
    decreases |js|
  {
    hide WideWith, CodeAt, Relaxed, Lands, Shift, Widened;
    var p := js[0].pos;
    k := Prefixes(Offset(js[0]));
    var rest := Moved(js[1..], p, k);
    var w1 := Widened(w, p, Offset(js[0]), k);
    RelaxedStep(w, js);
    ShiftStep(js, js[i].pos);
    ShiftStep(js, js[i].target);
    if i > 0 {
      assert rest[i - 1] == ForwardJump(js[i].pos, if js[i].target > p then js[i].target + k else js[i].target);
      assert w1[js[i].pos] == w[js[i].pos] by { WidenedBefore(w, p, Offset(js[0]), k, js[i].pos); }
      k := JumpsLand(w1, rest, i - 1);
    } else {
      forall j | 0 <= j < |rest| ensures rest[j].pos < p { assert rest[j].pos == js[j + 1].pos; }
      WidenedCode(w, p, Offset(js[0]), k);
      FirstLands(w1, rest, p, w[p].op, Offset(js[0]));
    }
  }

  /** After the jumps of a module are resolved each one decodes to the place its target moved to, if
      that is no further than 24 bits can say. */
  lemma JumpsDecode(w: seq<Word>, js: seq<ForwardJump>, i: nat) returns (next: nat)
    requires Pending(w, js) && i < |js| && w[js[i].pos].op != Extend
    requires Shift(js, js[i].target) - Shift(js, js[i].pos) <= MAX_OPERAND
    ensures var r, at, to := Relaxed(w, js), Shift(js, js[i].pos), Shift(js, js[i].target);
      at < next <= to && Decode(r, at, 0) == Decoded(w[js[i].pos].op, to - next, next)
  {
    hide Relaxed, Shift, Decode, WideWith, CodeAt;
    var k := JumpsLand(w, js, i);
    var r, at, to := Relaxed(w, js), Shift(js, js[i].pos), Shift(js, js[i].target);
    next := at + k + 1;
    DecodeWide(r, at, w[js[i].pos].op, to - next, k);
  }

  lemma ShiftStep(js: seq<ForwardJump>, x: nat)
    requires js != [] && forall i :: 0 <= i < |js| ==> js[i].pos < js[i].target
    ensures var p, k := js[0].pos, Prefixes(Offset(js[0]));
      Shift(js, x) == Shift(Moved(js[1..], p, k), if x > p then x + k else x)
  {
  }

  lemma WidenedBefore(w: seq<Word>, p: nat, offset: nat, k: nat, x: nat)
    requires x < p < |w| && k <= 2
    ensures Widened(w, p, offset, k)[x] == w[x]
  {
  }

  lemma RelaxedStep(w: seq<Word>, js: seq<ForwardJump>)
    requires Pending(w, js) && js != []
    ensures js[0].pos < js[0].target <= |w|
    ensures var k := Prefixes(Offset(js[0]));
      var w1, rest := Widened(w, js[0].pos, Offset(js[0]), k), Moved(js[1..], js[0].pos, k);
      && Pending(w1, rest) && Relaxed(w, js) == Relaxed(w1, rest)
  {
    PendingMoved(w, js);
  }

  lemma WidenedCode(w: seq<Word>, p: nat, offset: nat, k: nat)
    requires p < |w| && k <= 2
    ensures CodeAt(Widened(w, p, offset, k), p, WideWith(w[p].op, offset, k))
  {
  }

  lemma FirstLands(w1: seq<Word>, rest: seq<ForwardJump>, p: nat, op: Op, offset: nat)
    requires Pending(w1, rest) && forall j :: 0 <= j < |rest| ==> rest[j].pos < p
    requires var k := Prefixes(offset); p + k + 1 + offset <= |w1| && CodeAt(w1, p, WideWith(op, offset, k))
    ensures var k := Prefixes(offset); Lands(Relaxed(w1, rest), op, Shift(rest, p), Shift(rest, p + k + 1 + offset), k)
  {
    hide Relaxed, Shift, WideWith, CodeAt;
    var k := Prefixes(offset);
    CodeMoves(w1, rest, p, WideWith(op, offset, k));
    ShiftBounds(w1, rest, p, p + k + 1 + offset);
    ShiftBounds(w1, rest, p + k + 1 + offset, |w1|);
  }

  /** A jump resolved earlier still reaches its target when no jump being resolved lies between
      the two, whether it leads forwards or back. */
  lemma InnerJumpStands(w: seq<Word>, js: seq<ForwardJump>, x: nat, code: seq<Word>, target: nat)
    requires Pending(w, js) && code != [] && CodeAt(w, x, code)
    requires target <= |w| && (x + |code| <= target || target <= x)
    requires forall i :: 0 <= i < |js| ==>
      !(x <= js[i].pos < x + |code|) && !(x <= js[i].pos < target) && !(target <= js[i].pos < x)
    ensures CodeAt(Relaxed(w, js), Shift(js, x), code)
    ensures Shift(js, target) - (Shift(js, x) + |code|) == target - (x + |code|)
  {
    hide Relaxed, Shift;
    CodeMoves(w, js, x, code);
    if target <= x { ShiftBounds(w, js, target, x); } else { ShiftBounds(w, js, x, target); }
  }

  // ----- Closing a loop -----

  /** The least operand that counts the words from the loop start up to and including the
      JUMP_BACK and its own EXTEND words. */
  function BackOperand(span: nat): (back: nat)
    ensures back == span + 1 + Prefixes(back)
    ensures forall b: nat :: b == span + 1 + Prefixes(b) ==> back <= b
  {
    if Prefixes(span + 1) == 0 then span + 1
    else if Prefixes(span + 2) <= 1 then span + 2
    else span + 3
  }

  /** EXTEND words put in front of the exit jump, before the width of the JUMP_BACK is known. */
  function ExitWidth(w: seq<Word>, exit: nat): (k: nat)
    requires exit < |w|
    ensures k <= 2
  {
    Prefixes(|w| - (exit + 1) + 3)
  }

  /** A loop whose exit jump is the word at `exit`: the exit jump widened, a JUMP_BACK behind. */
  function Closed(w: seq<Word>, start: nat, exit: nat): (r: seq<Word>)
    requires start <= exit < |w|
    ensures |w| + ExitWidth(w, exit) < |r|
  {
    var k := ExitWidth(w, exit);
    var back := BackOperand(|w| + k - start);
    Widened(w, exit, |w| - (exit + 1) + 1 + Prefixes(back), k) + Wide(JumpBack, back)
  }

  /** Once closed, the exit jump decodes to the end of the loop and the JUMP_BACK to its start;
      the operand of the exit jump fits the EXTEND words put there before the JUMP_BACK was. */
  lemma LoopLands(w: seq<Word>, start: nat, exit: nat)
    requires start <= exit < |w| && w[exit].op != Extend
    requires |Closed(w, start, exit)| <= MAX_OPERAND
    ensures var r, k := Closed(w, start, exit), ExitWidth(w, exit);
      && r[..exit] == w[..exit] && r[exit + k + 1..|w| + k] == w[exit + 1..]
      && Prefixes(|r| - (exit + k + 1)) <= k
      && Decode(r, exit, 0) == Decoded(w[exit].op, |r| - (exit + k + 1), exit + k + 1)
      && Decode(r, |w| + k, 0) == Decoded(JumpBack, |r| - start, |r|)
  {
    hide Decode, WideWith, Closed, BackOperand, Wide;
    var r, k := Closed(w, start, exit), ExitWidth(w, exit);
    var back := BackOperand(|w| + k - start);
    var out := |w| - (exit + 1) + 1 + Prefixes(back);
    var code := WideWith(w[exit].op, out, k);
    var tail := Wide(JumpBack, back);
    ClosedParts(w, start, exit);
    assert r[..exit] == w[..exit] && r[exit + k + 1..|w| + k] == w[exit + 1..];
    CodeAtIn(w[..exit], code, w[exit + 1..] + tail, r);
    DecodeWide(r, exit, w[exit].op, out, k);
    CodeAtIn(w[..exit] + code + w[exit + 1..], tail, [], r);
    DecodeBack(r, |w| + k, back);
  }

  lemma ClosedParts(w: seq<Word>, start: nat, exit: nat)
    requires start <= exit < |w|
    ensures var k := ExitWidth(w, exit);
      var back := BackOperand(|w| + k - start);
      var out := |w| - (exit + 1) + 1 + Prefixes(back);
      var code := WideWith(w[exit].op, out, k);
      && Closed(w, start, exit) == w[..exit] + code + (w[exit + 1..] + Wide(JumpBack, back))
      && Closed(w, start, exit) == w[..exit] + code + w[exit + 1..] + Wide(JumpBack, back) + []
      && back == |Closed(w, start, exit)| - start
  {
    hide WideWith;
  }

  lemma DecodeBack(r: seq<Word>, p: nat, back: nat)
    requires back <= MAX_OPERAND && CodeAt(r, p, Wide(JumpBack, back))
    ensures Decode(r, p, 0) == Decoded(JumpBack, back, p + |Wide(JumpBack, back)|)
  {
    DecodeWide(r, p, JumpBack, back, Prefixes(back));
  }

  lemma CodeAtIn(a: seq<Word>, code: seq<Word>, b: seq<Word>, r: seq<Word>)
    requires r == a + code + b
    ensures CodeAt(r, |a|, code)
  {
  }
}
