/** Fuel only decides whether a run is seen to end: with more fuel it ends the same way. */
module Fuel {
  import opened Syntax
  import opened Resolve
  import opened Reference
  import opened Frames

  lemma {:induction false} MoreExec(e: RExpr, d: Link, slots: RSlots, h: RHeap, f: nat, g: nat)
    requires f <= g && !Exec(e, d, slots, h, f).FTimeout?
    ensures Exec(e, d, slots, h, g) == Exec(e, d, slots, h, f)
    decreases f, 2, e, 1
  {
    hide FApply, ExecInline, ExecArgs, ExecLoop, ExecCount, ReadCaptured, WriteCaptured, FCompute, ReadSelf;
    match e
    case StoreLocal(_, v) => MoreExec(v, d, slots, h, f, g);
    case StoreCaptured(_, v) => MoreExec(v, d, slots, h, f, g);
    case StoreInstVar(_, v) => MoreExec(v, d, slots, h, f, g);
    case Arith(_, l, r) =>
      MoreExec(l, d, slots, h, f, g);
      var a := Exec(l, d, slots, h, f);
      if a.FVal? { MoreExec(r, d, a.slots, a.heap, f, g); }
    case SendMsg(sel, recv, args) => MoreSend(e, d, slots, h, f, g);
    case ReturnFromHome(v) => MoreExec(v, d, slots, h, f, g);
    case Cond(_, onTrue, test, body) =>
      MoreExec(test, d, slots, h, f, g);
      var t := Exec(test, d, slots, h, f);
      if t.FVal? && t.v.FBool? && t.v.b == onTrue { MoreInline(body, d, t.slots, t.heap, f, g); }
    case CondElse(_, test, thn, els) =>
      MoreExec(test, d, slots, h, f, g);
      var t := Exec(test, d, slots, h, f);
      if t.FVal? && t.v.FBool? { MoreInline(if t.v.b then thn else els, d, t.slots, t.heap, f, g); }
    case Loop(_, _, _, _) => MoreLoop(e, d, slots, h, f, g);
    case CountLoop(slotI, slotEnd, start, stop, _) =>
      MoreExec(start, d, slots, h, f, g);
      var a := Exec(start, d, slots, h, f);
      if a.FVal? {
        MoreExec(stop, d, a.slots[slotI := a.v], a.heap, f, g);
        var b := Exec(stop, d, a.slots[slotI := a.v], a.heap, f);
        if b.FVal? { MoreCountLoop(e, a.v, d, b.slots[slotEnd := b.v], b.heap, f, g); }
      }
    case _ =>
  }

  lemma {:induction false} MoreSend(e: RExpr, d: Link, slots: RSlots, h: RHeap, f: nat, g: nat)
    requires e.SendMsg? && f <= g && !Exec(e, d, slots, h, f).FTimeout?
    ensures Exec(e, d, slots, h, g) == Exec(e, d, slots, h, f)
    decreases f, 2, e, 0
  {
    hide FApply, ExecArgs;
    MoreExec(e.recv, d, slots, h, f, g);
    var r := Exec(e.recv, d, slots, h, f);
    if r.FVal? {
      MoreArgs(e.args, d, r.slots, r.heap, f, g);
      var a := ExecArgs(e.args, d, r.slots, r.heap, f);
      if a.FVals? { MoreApply(e.sel, r.v, a.vs, a.heap, f, g); }
    }
  }

  lemma {:induction false} MoreArgs(es: RExprs, d: Link, slots: RSlots, h: RHeap, f: nat, g: nat)
    requires f <= g && !ExecArgs(es, d, slots, h, f).FTimeout?
    ensures ExecArgs(es, d, slots, h, g) == ExecArgs(es, d, slots, h, f)
    decreases f, 2, es, 0
  {
    hide Exec;
    match es
    case RNil =>
    case RCons(e, t) =>
      MoreExec(e, d, slots, h, f, g);
      var a := Exec(e, d, slots, h, f);
      if a.FVal? { MoreArgs(t, d, a.slots, a.heap, f, g); }
  }

  lemma {:induction false} MoreBody(es: RExprs, d: Link, slots: RSlots, h: RHeap, f: nat, g: nat)
    requires f <= g && !ExecBody(es, d, slots, h, f).FTimeout?
    ensures ExecBody(es, d, slots, h, g) == ExecBody(es, d, slots, h, f)
    decreases f, 2, es, 0
  {
    hide Exec;
    match es
    case RNil =>
    case RCons(e, t) =>
      MoreExec(e, d, slots, h, f, g);
      var a := Exec(e, d, slots, h, f);
      if t.RCons? && a.FVal? { MoreBody(t, d, a.slots, a.heap, f, g); }
  }

  lemma {:induction false} MoreInline(es: RExprs, d: Link, slots: RSlots, h: RHeap, f: nat, g: nat)
    requires f <= g && !ExecInline(es, d, slots, h, f).FTimeout?
    ensures ExecInline(es, d, slots, h, g) == ExecInline(es, d, slots, h, f)
    decreases f, 1
  {
    MoreBody(es, d, slots, h, f - 1, g - 1);
  }

  lemma {:induction false} MoreLoop(e: RExpr, d: Link, slots: RSlots, h: RHeap, f: nat, g: nat)
    requires e.Loop? && f <= g && !ExecLoop(e, d, slots, h, f).FTimeout?
    ensures ExecLoop(e, d, slots, h, g) == ExecLoop(e, d, slots, h, f)
    decreases f, 2, e, 0
  {
    hide ExecInline;
    MoreInline(e.guard, d, slots, h, f - 1, g - 1);
    var c := ExecInline(e.guard, d, slots, h, f - 1);
    if c.FVal? && c.v.FBool? && c.v.b == e.onTrue {
      MoreInline(e.body, d, c.slots, c.heap, f - 1, g - 1);
      var b := ExecInline(e.body, d, c.slots, c.heap, f - 1);
      if b.FVal? { MoreLoop(e, d, b.slots, b.heap, f - 1, g - 1); }
    }
  }

  lemma {:induction false} MoreCountLoop(e: RExpr, start: RValue, d: Link, slots: RSlots, h: RHeap, f: nat, g: nat)
    requires e.CountLoop? && f <= g && !ExecCount(e, start, d, slots, h, f).FTimeout?
    ensures ExecCount(e, start, d, slots, h, g) == ExecCount(e, start, d, slots, h, f)
    decreases f, 2, e, 0
  {
    hide ExecInline;
    var i, stop := ReadSlot(slots, e.slotI), ReadSlot(slots, e.slotEnd);
    if i.FInt? && stop.FInt? && i.n <= stop.n {
      MoreInline(e.body, d, slots, h, f - 1, g - 1);
      var b := ExecInline(e.body, d, slots, h, f - 1);
      if b.FVal? {
        var j := ReadSlot(b.slots, e.slotI);
        if j.FInt? { MoreCountLoop(e, start, d, b.slots[e.slotI := FInt(j.n + 1)], b.heap, f - 1, g - 1); }
      }
    }
  }

  lemma {:induction false} MoreCall(fn: RValue, args: seq<RValue>, h: RHeap, f: nat, g: nat)
    requires f <= g && !FCall(fn, args, h, f).FTimeout?
    ensures FCall(fn, args, h, g) == FCall(fn, args, h, f)
    decreases f, 0
  {
    hide ExecBody, OpenDict;
    if fn.Closure? && |args| == fn.code.argCount {
      var (d, h') := OpenDict(h, fn.dict, fn.code.defines, ArgSlots(args));
      MoreBody(fn.code.body, d, ArgSlots(args), h', f - 1, g - 1);
    }
  }

  lemma {:induction false} MoreApply(sel: Selector, recv: RValue, args: seq<RValue>, h: RHeap, f: nat, g: nat)
    requires f <= g && !FApply(sel, recv, args, h, f).FTimeout?
    ensures FApply(sel, recv, args, h, g) == FApply(sel, recv, args, h, f)
    decreases f, 1
  {
    hide FCall, FWhile, FCount;
    match (sel, recv)
    case (Value(k), Closure(_, _)) => if k == |args| <= 4 { MoreCall(recv, args, h, f, g); }
    case (IfTrue, FBool(b)) => if |args| == 1 && b { MoreCall(args[0], [], h, f, g); }
    case (IfFalse, FBool(b)) => if |args| == 1 && !b { MoreCall(args[0], [], h, f, g); }
    case (IfTrueIfFalse, FBool(b)) => if |args| == 2 { MoreCall(if b then args[0] else args[1], [], h, f, g); }
    case (IfFalseIfTrue, FBool(b)) => if |args| == 2 { MoreCall(if b then args[1] else args[0], [], h, f, g); }
    case (WhileTrue, Closure(_, _)) => if |args| == 1 { MoreWhile(sel, recv, args[0], h, f, g); }
    case (WhileFalse, Closure(_, _)) => if |args| == 1 { MoreWhile(sel, recv, args[0], h, f, g); }
    case (ToDo, _) =>
      if |args| == 2 && recv.FInt? && args[0].FInt? { MoreCount(recv.n, recv.n, args[0].n, args[1], h, f, g); }
    case _ =>
  }

  lemma {:induction false} MoreWhile(sel: Selector, cond: RValue, body: RValue, h: RHeap, f: nat, g: nat)
    requires f <= g && !FWhile(sel, cond, body, h, f).FTimeout?
    ensures FWhile(sel, cond, body, h, g) == FWhile(sel, cond, body, h, f)
    decreases f, 0
  {
    hide FCall;
    MoreCall(cond, [], h, f - 1, g - 1);
    var c := FCall(cond, [], h, f - 1);
    if c.FVal? && (c.v == FBool(true)) == (sel == WhileTrue) {
      MoreCall(body, [], c.heap, f - 1, g - 1);
      var b := FCall(body, [], c.heap, f - 1);
      if b.FVal? { MoreWhile(sel, cond, body, b.heap, f - 1, g - 1); }
    }
  }

  lemma {:induction false} MoreCount(start: int, i: int, stop: int, body: RValue, h: RHeap, f: nat, g: nat)
    requires f <= g && !FCount(start, i, stop, body, h, f).FTimeout?
    ensures FCount(start, i, stop, body, h, g) == FCount(start, i, stop, body, h, f)
    decreases f, 0
  {
    hide FCall;
    if i <= stop {
      MoreCall(body, [FInt(i)], h, f - 1, g - 1);
      var b := FCall(body, [FInt(i)], h, f - 1);
      if b.FVal? { MoreCount(start, i + 1, stop, body, b.heap, f - 1, g - 1); }
    }
  }
}
