/** The execution engine: one instruction a step, on a stack of code frames and of the native
    loops (whileTrue:, to:do:) that are waiting for a block they called. */
module Engine {
  import opened Syntax
  import opened Resolve
  import opened Reference
  import opened Frames
  import opened Bytecode

  type MValue = FValue<Module>
  type MHeap = Heap<Module>
  type MSlots = Slots<Module>

  datatype Stack =
    | Bottom
    | CodeFrame(m: Module, pc: nat, slots: MSlots, stack: seq<MValue>, dict: Link, below: Stack)
    | WhileFrame(sel: Selector, cond: MValue, body: MValue, inBody: bool, below: Stack)
    | CountFrame(start: int, i: int, stop: int, body: MValue, below: Stack)

  datatype Machine =
    | Running(frames: Stack, heap: MHeap)
    | Halted(why: Why<MValue>, heap: MHeap)
    | Crashed   // a malformed instruction stream

  /** Activate a block; its captured dictionary is the one it was created with. */
  function Invoke(f: MValue, args: seq<MValue>, below: Stack, h: MHeap): Machine {
    if !f.Closure? then Halted(NotABlock, h)
    else if |args| != f.code.argCount then Halted(WrongArgCount, h)
    else Running(CodeFrame(f.code, 0, ArgSlots(args), [], f.dict, below), h)
  }

  /** Hand a value to the frame below the one that returned it. */
  function Deliver(v: MValue, frames: Stack, h: MHeap): Machine
    decreases frames, 0
  {
    match frames
    case Bottom => Halted(Returned(v), h)
    case CodeFrame(_, _, _, _, _, _) => Running(frames.(stack := frames.stack + [v]), h)
    case WhileFrame(sel, cond, body, inBody, below) =>
      if inBody then Invoke(cond, [], frames.(inBody := false), h)
      else if (v == FBool(true)) != (sel == WhileTrue) then Deliver(FNil, below, h)
      else Invoke(body, [], frames.(inBody := true), h)
    case CountFrame(start, i, stop, body, below) => CountFrom(start, i + 1, stop, body, below, h)
  }

  function CountFrom(start: int, i: int, stop: int, body: MValue, below: Stack, h: MHeap): Machine
    decreases below, 1
  {
    if i > stop then Deliver(FInt(start), below, h)
    else Invoke(body, [FInt(i)], CountFrame(start, i, stop, body, below), h)
  }

  /** The primitives a send reaches. */
  function Dispatch(sel: Selector, recv: MValue, args: seq<MValue>, below: Stack, h: MHeap): Machine {
    match (sel, recv)
    case (Value(k), Closure(_, _)) =>
      if k == |args| <= 4 then Invoke(recv, args, below, h) else Halted(Dnu(sel, recv), h)
    case (IfTrue, FBool(b)) =>
      if |args| != 1 then Halted(Dnu(sel, recv), h)
      else if b then Invoke(args[0], [], below, h) else Deliver(FNil, below, h)
    case (IfFalse, FBool(b)) =>
      if |args| != 1 then Halted(Dnu(sel, recv), h)
      else if b then Deliver(FNil, below, h) else Invoke(args[0], [], below, h)
    case (IfTrueIfFalse, FBool(b)) =>
      if |args| != 2 then Halted(Dnu(sel, recv), h)
      else Invoke(if b then args[0] else args[1], [], below, h)
    case (IfFalseIfTrue, FBool(b)) =>
      if |args| != 2 then Halted(Dnu(sel, recv), h)
      else Invoke(if b then args[1] else args[0], [], below, h)
    case (WhileTrue, Closure(_, _)) =>
      if |args| != 1 then Halted(Dnu(sel, recv), h)
      else Invoke(recv, [], WhileFrame(sel, recv, args[0], false, below), h)
    case (WhileFalse, Closure(_, _)) =>
      if |args| != 1 then Halted(Dnu(sel, recv), h)
      else Invoke(recv, [], WhileFrame(sel, recv, args[0], false, below), h)
    case (ToDo, _) =>
      if |args| != 2 then Halted(Dnu(sel, recv), h)
      else if !recv.FInt? || !args[0].FInt? then Halted(NotInteger(recv, args[0]), h)
      else CountFrom(recv.n, recv.n, args[0].n, args[1], below, h)
    case _ => Halted(Dnu(sel, recv), h)
  }

  function Push(f: Stack, v: MValue, h: MHeap): Machine
    requires f.CodeFrame?
  {
    Running(f.(stack := f.stack + [v]), h)
  }

  function Top(f: Stack): MValue
    requires f.CodeFrame? && f.stack != []
  {
    f.stack[|f.stack| - 1]
  }

  function Popped(f: Stack, n: nat): (g: Stack)
    requires f.CodeFrame? && n <= |f.stack|
    ensures g.CodeFrame?
  {
    f.(stack := f.stack[..|f.stack| - n])
  }

  /** One instruction, in a frame whose pc is already past it. */
  function Execute(op: Op, arg: nat, f: Stack, h: MHeap): Machine
    requires f.CodeFrame?
  {
    var consts, depth := f.m.consts, |f.stack|;
    match op
    case PushConst => if arg < |consts| && consts[arg].IntConst? then Push(f, FInt(consts[arg].n), h) else Crashed
    case PushNilOp => Push(f, FNil, h)
    case PushTrue => Push(f, FBool(true), h)
    case PushFalse => Push(f, FBool(false), h)
    case PushSelfOp => Push(f, FSelf, h)
    case PushLocal => Push(f, ReadSlot(f.slots, arg), h)
    case StoreLocal => if depth == 0 then Crashed else Running(Popped(f, 1).(slots := f.slots[arg := Top(f)]), h)
    case Dup => if depth == 0 then Crashed else Push(f, Top(f), h)
    case Pop => if depth == 0 then Crashed else Running(Popped(f, 1), h)
    case PushBlock => if arg < |f.m.blocks| then Push(f, Closure(f.m.blocks[arg], f.dict), h) else Crashed
    case PushCaptured =>
      if arg < |consts| && consts[arg].NameConst? then Push(f, ReadCaptured(h, f.dict, consts[arg].name), h) else Crashed
    case StoreCaptured =>
      if depth == 0 || arg >= |consts| || !consts[arg].NameConst? then Crashed
      else if !HasDict(h, f.dict) then Halted(NoDictionary, h)
      else Running(Popped(f, 1), WriteCaptured(h, f.dict, consts[arg].name, Top(f)))
    case DefineCaptured =>
      if depth == 0 || arg >= |consts| || !consts[arg].NameConst? then Crashed
      else if !HasDict(h, f.dict) then Halted(NoDictionary, h)
      else Running(Popped(f, 1), BindIn(h, f.dict.id, consts[arg].name, Top(f)))
    case MakeCaptured =>
      var parent := if arg == 1 then f.dict else NoDict;
      Running(f.(dict := At(|h.dicts|)), h.(dicts := h.dicts + [Dict(parent, map[])]))
    case PushInstVar =>
      if arg < |consts| && consts[arg].NameConst? then Push(f, ReadSelf(h, consts[arg].name), h) else Crashed
    case StoreInstVar =>
      if depth == 0 || arg >= |consts| || !consts[arg].NameConst? then Crashed
      else Running(Popped(f, 1), h.(self := h.self[consts[arg].name := Top(f)]))
    case BinInt(op) =>
      if depth < 2 then Crashed
      else
        var a, b := f.stack[depth - 2], f.stack[depth - 1];
        if a.FInt? && b.FInt? then Push(Popped(f, 2), FCompute(op, a.n, b.n), h) else Halted(NotInteger(a, b), h)
    case AssertBoolOrDnu =>
      if depth == 0 || arg >= |consts| || !consts[arg].SelectorConst? then Crashed
      else if Top(f).FBool? then Running(f, h)
      else Halted(Dnu(consts[arg].sel, Top(f)), h)
    case Jump => Running(f.(pc := f.pc + arg), h)
    case JumpIfTrue => if depth == 0 then Crashed
      else Running(Popped(f, 1).(pc := if Top(f) == FBool(true) then f.pc + arg else f.pc), h)
    case JumpIfFalse => if depth == 0 then Crashed
      else Running(Popped(f, 1).(pc := if Top(f) == FBool(false) then f.pc + arg else f.pc), h)
    case JumpBack => if arg <= f.pc then Running(f.(pc := f.pc - arg), h) else Crashed
    case SendUnary => SendTo(arg, f, h)
    case SendKeyword => SendTo(arg, f, h)
    case Return => Halted(Returned(if depth == 0 then FNil else Top(f)), h)   // the home is the method
    case ReturnTop => Deliver(if depth == 0 then FNil else Top(f), f.below, h)
    case Extend => Crashed
  }

  /** A send takes its arguments and receiver off the stack; the answer will be pushed there. */
  function SendTo(arg: nat, f: Stack, h: MHeap): Machine
    requires f.CodeFrame?
  {
    var consts, depth := f.m.consts, |f.stack|;
    if arg >= |consts| || !consts[arg].SelectorConst? then Crashed
    else
      var n := Arity(consts[arg].sel);
      if depth < n + 1 then Crashed
      else Dispatch(consts[arg].sel, f.stack[depth - n - 1], f.stack[depth - n..], Popped(f, n + 1), h)
  }

  function Step(s: Machine): Machine {
    if !s.Running? then s
    else if !s.frames.CodeFrame? then Crashed
    else
      var f := s.frames;
      if f.pc >= |f.m.words| then Deliver(if f.stack == [] then FNil else Top(f), f.below, s.heap)
      else match Decode(f.m.words, f.pc, 0)
        case Decoded(op, arg, next) => Execute(op, arg, f.(pc := next), s.heap)
        case Truncated => Crashed
  }

  function Steps(s: Machine, n: nat): Machine
    decreases n
  {
    if n == 0 then s else Steps(Step(s), n - 1)
  }

  /** Start a compiled method: slot 0 is self. */
  function Start(m: Module, args: seq<MValue>, self: map<string, MValue>): Machine {
    Running(CodeFrame(m, 0, ArgSlots([FSelf] + args), [], NoDict, Bottom), Heap([], self))
  }

  ghost predicate Reaches(a: Machine, b: Machine) { exists n: nat :: Steps(a, n) == b }

  lemma {:induction false} StepsAdd(s: Machine, a: nat, b: nat)
    ensures Steps(s, a + b) == Steps(Steps(s, a), b)
    decreases a
  {
    if a > 0 { StepsAdd(Step(s), a - 1, b); }
  }

  lemma ReachesTrans(a: Machine, b: Machine, c: Machine)
    requires Reaches(a, b) && Reaches(b, c)
    ensures Reaches(a, c)
  {
    var m: nat :| Steps(a, m) == b;
    var n: nat :| Steps(b, n) == c;
    StepsAdd(a, m, n);
  }

  lemma ReachesStep(a: Machine, b: Machine)
    requires Step(a) == b
    ensures Reaches(a, b)
  {
    assert Steps(a, 1) == Steps(Step(a), 0) == b;
  }

  lemma ReachesSelf(a: Machine)
    ensures Reaches(a, a)
  {
    assert Steps(a, 0) == a;
  }

  /** A halted machine stays as it is: how a run ends does not depend on when one looks. */
  lemma {:induction false} EndIsUnique(s: Machine, m: nat, n: nat)
    requires Steps(s, m).Halted? && Steps(s, n).Halted?
    ensures Steps(s, m) == Steps(s, n)
  {
    if m <= n { Stays(s, m, n - m); } else { Stays(s, n, m - n); }
  }

  lemma {:induction false} Stays(s: Machine, m: nat, k: nat)
    requires Steps(s, m).Halted?
    ensures Steps(s, m + k) == Steps(s, m)
    decreases k
  {
    if k > 0 {
      Stays(s, m, k - 1);
      StepsAdd(s, m + k - 1, 1);
      assert Steps(Steps(s, m + k - 1), 1) == Step(Steps(s, m + k - 1));
    }
  }
}
