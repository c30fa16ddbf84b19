/** Runs of instance-variable assignments. The compiler turns `v1 := e1. ... vn := en.` into one
    publication of the object when nothing between the writes can run code; the engine falls back to
    one write at a time when an operator misses its fast path and sends a message. */
module StoreGroups {
  import opened Syntax

  datatype Value = Int(n: int) | Bool(b: bool) | Nil | Self | Ref(id: nat)

  /** What code can observe: the object's variables, the frame's own and captured variables, and
      everything else. */
  datatype World = World(attrs: map<string, Value>, vars: map<string, Value>, rest: int)

  datatype Reply = Returned(world: World, value: Value) | Left(world: World)

  datatype Option<T> = None | Some(value: T)

  /** The frame's surroundings: the SmallInteger range, whether there is a `self`, whether a debugger
      is attached, what a message send and what any other code do. */
  datatype Env = Env(
    limit: nat,
    hasSelf: bool,
    attached: World -> bool,
    send: (World, BinOp, Value, Value) -> Reply,
    evaluate: (World, Node) -> Reply)

  datatype Event = Published(attrs: map<string, Value>) | Sent(world: World, op: BinOp, left: Value, right: Value)

  datatype Status = Running | Stopped | NoSelf | Crashed

  datatype Entry = Entry(name: string, position: nat, count: nat)

  datatype Instr =
    | PushValue(value: Value)
    | PushSelf
    | PushVar(name: string)
    | PushInstVar(name: string)
    | BinInt(op: BinOp)
    | Evaluate(node: Node)
    | Dup
    | Pop
    | StoreInstVar(name: string)
    | IvarGroup(arg: nat)
    | IvarGroupEnd(arg: nat)

  /** A frame. While `active`, the writes of the run's first `pending` positions are held on the
      stack from `base` up, not yet made; `first` is the run's first entry. */
  datatype Machine = Machine(
    status: Status,
    world: World,
    stack: seq<Value>,
    active: bool,
    pending: nat,
    base: nat,
    first: nat,
    log: seq<Event>)

  const MAX_GROUP := 16

  // ---------------------------------------------------------------- the compiler

  datatype Scope = Scope(bound: set<string>, iv: set<string>)

  predicate IsInstVarAssignment(n: Node, sc: Scope) {
    n.Assignment? && n.name !in sc.bound && n.name in sc.iv
  }

  /** A value that cannot run code and reads none of the variables the run has written. */
  predicate IsInert(e: Node, written: set<string>, sc: Scope) {
    match e
    case IntLit(_) => true
    case BoolLit(_) => true
    case NilLit => true
    case SelfRef => true
    case Ident(x) => x in sc.bound || (x in sc.iv && x !in written)
    case Binary(_, l, r) => IsInert(l, written, sc) && IsInert(r, written, sc)
    case _ => false
  }

  function ValueCode(e: Node, sc: Scope): seq<Instr> {
    match e
    case IntLit(n) => [PushValue(Int(n))]
    case BoolLit(b) => [PushValue(Bool(b))]
    case NilLit => [PushValue(Nil)]
    case SelfRef => [PushSelf]
    case Ident(x) => if x in sc.bound then [PushVar(x)] else if x in sc.iv then [PushInstVar(x)] else [Evaluate(e)]
    case Binary(op, l, r) => ValueCode(l, sc) + ValueCode(r, sc) + [BinInt(op)]
    case _ => [Evaluate(e)]
  }

  /** Where the run that starts at `i` ends, from `j` on. */
  function RunEnd(stmts: seq<Node>, sc: Scope, i: nat, j: nat, written: set<string>): (e: nat)
    requires i < j <= |stmts|
    ensures j <= e <= |stmts|
    decreases |stmts| - j
  {
    if j < |stmts| && j - i < MAX_GROUP && IsInstVarAssignment(stmts[j], sc) && IsInert(stmts[j].value, written, sc) then
      RunEnd(stmts, sc, i, j + 1, written + {stmts[j].name})
    else j
  }

  /** The length of the run at `i`, none when it would not be worth one. */
  function RunLength(stmts: seq<Node>, sc: Scope, i: nat): (n: nat)
    requires i < |stmts|
    ensures i + n <= |stmts| && n != 1
  {
    if !IsInstVarAssignment(stmts[i], sc) then 0
    else
      var n := RunEnd(stmts, sc, i, i + 1, {stmts[i].name}) - i;
      if n < 2 then 0 else n
  }

  predicate AllAssign(run: seq<Node>, sc: Scope) { forall k | 0 <= k < |run| :: IsInstVarAssignment(run[k], sc) }

  function Names(run: seq<Node>, sc: Scope): (names: seq<string>)
    requires AllAssign(run, sc)
    ensures |names| == |run|
  {
    seq(|run|, k requires 0 <= k < |run| => run[k].name)
  }

  function Entries(run: seq<Node>, sc: Scope): seq<Entry>
    requires AllAssign(run, sc)
  {
    seq(|run|, k requires 0 <= k < |run| => Entry(run[k].name, k, |run|))
  }

  /** The code of a run's statements from position `k` on, its entries starting at `first`. */
  function GroupCode(run: seq<Node>, sc: Scope, k: nat, first: nat): seq<Instr>
    requires AllAssign(run, sc) && k <= |run|
    decreases |run| - k
  {
    if k == |run| then []
    else ValueCode(run[k].value, sc) + [if k + 1 < |run| then IvarGroup(first + k) else IvarGroupEnd(first + k)]
         + GroupCode(run, sc, k + 1, first)
  }

  function StatementCode(s: Node, sc: Scope): seq<Instr> {
    if IsInstVarAssignment(s, sc) then ValueCode(s.value, sc) + [Dup, StoreInstVar(s.name)] else [Evaluate(s)]
  }

  datatype Emitted = Emitted(code: seq<Instr>, entries: seq<Entry>)

  function PopUnlessLast(i: nat, end: nat): seq<Instr> { if i < end then [Pop] else [] }

  /** A statement list from `i` on, with the runs grouped. */
  function GroupedCode(stmts: seq<Node>, sc: Scope, i: nat, entries: seq<Entry>): (e: Emitted)
    requires i <= |stmts|
    ensures entries <= e.entries
    decreases |stmts| - i
  {
    if i == |stmts| then Emitted([], entries)
    else
      var n := RunLength(stmts, sc, i);
      if n > 0 then
        RunIsAssign(stmts, sc, i);
        var run := stmts[i..i + n];
        var rest := GroupedCode(stmts, sc, i + n, entries + Entries(run, sc));
        Emitted(GroupCode(run, sc, 0, |entries|) + PopUnlessLast(i + n, |stmts|) + rest.code, rest.entries)
      else
        var rest := GroupedCode(stmts, sc, i + 1, entries);
        Emitted(StatementCode(stmts[i], sc) + PopUnlessLast(i + 1, |stmts|) + rest.code, rest.entries)
  }

  /** The same list with one store for each assignment. */
  function PlainCode(stmts: seq<Node>, sc: Scope, i: nat): seq<Instr>
    requires i <= |stmts|
    decreases |stmts| - i
  {
    if i == |stmts| then []
    else StatementCode(stmts[i], sc) + PopUnlessLast(i + 1, |stmts|) + PlainCode(stmts, sc, i + 1)
  }

  /** The names a run has written before position `k`. */
  function WrittenBefore(run: seq<Node>, sc: Scope, k: nat): set<string>
    requires AllAssign(run, sc) && k <= |run|
  {
    set x | x in Names(run, sc)[..k]
  }

  /** What an accepted run is: assignments to instance variables, every value but the first inert. */
  predicate IsRun(run: seq<Node>, sc: Scope) {
    && AllAssign(run, sc) && 2 <= |run| <= MAX_GROUP
    && forall k | 1 <= k < |run| :: IsInert(run[k].value, WrittenBefore(run, sc, k), sc)
  }

  lemma OneMore(run: seq<Node>, s: Node, sc: Scope)
    requires AllAssign(run, sc) && IsInstVarAssignment(s, sc)
    ensures AllAssign(run + [s], sc)
    ensures forall k | 0 <= k <= |run| :: WrittenBefore(run + [s], sc, k) == WrittenBefore(run, sc, k)
    ensures WrittenBefore(run + [s], sc, |run| + 1) == WrittenBefore(run, sc, |run|) + {s.name}
  {
    var longer := run + [s];
    assert AllAssign(longer, sc);
    assert Names(longer, sc) == Names(run, sc) + [s.name];
    forall k | 0 <= k <= |run| ensures WrittenBefore(longer, sc, k) == WrittenBefore(run, sc, k) {
      assert Names(longer, sc)[..k] == Names(run, sc)[..k];
    }
    assert Names(longer, sc)[..|run| + 1] == Names(run, sc)[..|run|] + [s.name];
  }

  lemma {:induction false} RunEndAccepts(stmts: seq<Node>, sc: Scope, i: nat, j: nat)
    requires i < j <= |stmts| && j - i <= MAX_GROUP && AllAssign(stmts[i..j], sc)
    requires forall k | 1 <= k < j - i :: IsInert(stmts[i..j][k].value, WrittenBefore(stmts[i..j], sc, k), sc)
    ensures var e := RunEnd(stmts, sc, i, j, WrittenBefore(stmts[i..j], sc, j - i));
            && e - i <= MAX_GROUP && AllAssign(stmts[i..e], sc)
            && forall k | 1 <= k < e - i :: IsInert(stmts[i..e][k].value, WrittenBefore(stmts[i..e], sc, k), sc)
    decreases |stmts| - j
  {
    hide IsInert;
    var written := WrittenBefore(stmts[i..j], sc, j - i);
    if j < |stmts| && j - i < MAX_GROUP && IsInstVarAssignment(stmts[j], sc) && IsInert(stmts[j].value, written, sc) {
      var shorter, longer := stmts[i..j], stmts[i..j + 1];
      assert longer == shorter + [stmts[j]];
      OneMore(shorter, stmts[j], sc);
      hide WrittenBefore;
      forall k | 1 <= k < j + 1 - i ensures IsInert(longer[k].value, WrittenBefore(longer, sc, k), sc) {
        if k < j - i {
          assert IsInert(shorter[k].value, WrittenBefore(shorter, sc, k), sc);
          assert shorter[k] == longer[k];
        }
      }
      RunEndAccepts(stmts, sc, i, j + 1);
    }
  }

  /** Every run the compiler groups is one. */
  lemma RunIsAssign(stmts: seq<Node>, sc: Scope, i: nat)
    requires i < |stmts|
    ensures var n := RunLength(stmts, sc, i); n > 0 ==> AllAssign(stmts[i..i + n], sc) && IsRun(stmts[i..i + n], sc)
  {
    if IsInstVarAssignment(stmts[i], sc) {
      assert stmts[i..i + 1] == [stmts[i]];
      assert WrittenBefore(stmts[i..i + 1], sc, 1) == {stmts[i].name} by {
        assert Names(stmts[i..i + 1], sc)[..1] == [stmts[i].name];
      }
      RunEndAccepts(stmts, sc, i, i + 1);
    }
  }

  // ---------------------------------------------------------------- the engine

  predicate IsSmall(limit: nat, v: Value) { v.Int? && 0 - limit <= v.n < limit }

  /** A SmallInteger operator's answer, none when it misses its fast path. */
  function Fast(limit: nat, op: BinOp, l: Value, r: Value): Option<Value> {
    if !IsSmall(limit, l) || !IsSmall(limit, r) then None
    else
      match op
      case Add => if IsSmall(limit, Int(l.n + r.n)) then Some(Int(l.n + r.n)) else None
      case Sub => if IsSmall(limit, Int(l.n - r.n)) then Some(Int(l.n - r.n)) else None
      case Le => Some(Bool(l.n <= r.n))
      case Lt => Some(Bool(l.n < r.n))
      case Ge => Some(Bool(l.n >= r.n))
      case Gt => Some(Bool(l.n > r.n))
  }

  function Write(env: Env, m: Machine, name: string, v: Value): Machine {
    if !env.hasSelf then m.(status := NoSelf)
    else
      var attrs := m.world.attrs[name := v];
      m.(world := m.world.(attrs := attrs), log := m.log + [Published(attrs)])
  }

  /** The pending writes from position `k` on, made one by one. */
  function FlushFrom(env: Env, entries: seq<Entry>, m: Machine, pending: nat, k: nat): Machine
    decreases pending - k
  {
    if m.status != Running || k >= pending then m
    else if m.first + k >= |entries| || m.base + k >= |m.stack| then m.(status := Crashed)
    else FlushFrom(env, entries, Write(env, m, entries[m.first + k].name, m.stack[m.base + k]), pending, k + 1)
  }

  function Flush(env: Env, entries: seq<Entry>, m: Machine): Machine {
    if m.active then FlushFrom(env, entries, m.(active := false, pending := 0), m.pending, 0) else m
  }

  function Push(m: Machine, v: Value): Machine { m.(stack := m.stack + [v]) }

  function Answered(m: Machine, stack: seq<Value>, reply: Reply): Machine {
    match reply
    case Returned(w, v) => m.(world := w, stack := stack + [v])
    case Left(w) => m.(status := Stopped, world := w)
  }

  function Operate(env: Env, entries: seq<Entry>, m: Machine, op: BinOp): Machine {
    var n := |m.stack|;
    if n < 2 then m.(status := Crashed)
    else
      var l, r := m.stack[n - 2], m.stack[n - 1];
      match Fast(env.limit, op, l, r)
      case Some(v) => m.(stack := m.stack[..n - 2] + [v])
      case None =>
        var f := Flush(env, entries, m);
        if f.status != Running then f
        else Answered(f.(log := f.log + [Sent(f.world, op, l, r)]), m.stack[..n - 2], env.send(f.world, op, l, r))
  }

  function BeginRun(env: Env, m: Machine, arg: nat): Machine
    requires m.stack != []
  {
    m.(active := env.hasSelf && !env.attached(m.world), pending := 0, base := |m.stack| - 1, first := arg)
  }

  /** A run's names and values, written in order. */
  function Written(attrs: map<string, Value>, names: seq<string>, values: seq<Value>): map<string, Value>
    requires |names| == |values|
    decreases |names|
  {
    if names == [] then attrs
    else
      var n := |names| - 1;
      Written(attrs, names[..n], values[..n])[names[n] := values[n]]
  }

  function EntryNames(entries: seq<Entry>, first: nat, count: nat): (names: seq<string>)
    requires first + count <= |entries|
    ensures |names| == count
  {
    seq(count, k requires 0 <= k < count => entries[first + k].name)
  }

  function GroupWrite(env: Env, entries: seq<Entry>, m: Machine, arg: nat): Machine {
    if m.stack == [] || arg >= |entries| then m.(status := Crashed)
    else
      var b := if entries[arg].position == 0 then BeginRun(env, m, arg) else m;
      if b.active then b.(pending := b.pending + 1)
      else Write(env, b, entries[arg].name, m.stack[|m.stack| - 1])
  }

  function GroupEnd(env: Env, entries: seq<Entry>, m: Machine, arg: nat): Machine {
    var n := |m.stack|;
    if arg >= |entries| || n == 0 || n < entries[arg].count || entries[arg].count == 0 then m.(status := Crashed)
    else
      var e := entries[arg];
      var last := m.stack[n - 1];
      var w :=
        if m.active then
          if arg < e.position || arg - e.position + e.count > |entries| then m.(status := Crashed)
          else
            var attrs := Written(m.world.attrs, EntryNames(entries, arg - e.position, e.count), m.stack[n - e.count..]);
            m.(active := false, pending := 0, world := m.world.(attrs := attrs), log := m.log + [Published(attrs)])
        else Write(env, m, e.name, last);
      if w.status != Running then w else w.(stack := m.stack[..n - e.count] + [last])
  }

  function Step(env: Env, entries: seq<Entry>, m: Machine, i: Instr): Machine {
    if m.status != Running then m
    else
      match i
      case PushValue(v) => Push(m, v)
      case PushSelf => Push(m, if env.hasSelf then Self else Nil)
      case PushVar(x) => Push(m, if x in m.world.vars then m.world.vars[x] else Nil)
      case PushInstVar(x) => Push(m, if env.hasSelf && x in m.world.attrs then m.world.attrs[x] else Nil)
      case BinInt(op) => Operate(env, entries, m, op)
      case Evaluate(n) => Answered(m, m.stack, env.evaluate(m.world, n))
      case Dup => if m.stack == [] then m.(status := Crashed) else Push(m, m.stack[|m.stack| - 1])
      case Pop => if m.stack == [] then m.(status := Crashed) else m.(stack := m.stack[..|m.stack| - 1])
      case StoreInstVar(x) =>
        if m.stack == [] then m.(status := Crashed)
        else Write(env, m.(stack := m.stack[..|m.stack| - 1]), x, m.stack[|m.stack| - 1])
      case IvarGroup(arg) => GroupWrite(env, entries, m, arg)
      case IvarGroupEnd(arg) => GroupEnd(env, entries, m, arg)
  }

  function Exec(env: Env, entries: seq<Entry>, m: Machine, code: seq<Instr>): Machine
    decreases |code|
  {
    if code == [] then m else Exec(env, entries, Step(env, entries, m, code[0]), code[1..])
  }

  /** The messages sent, each with the world it saw. */
  function Sends(log: seq<Event>): seq<Event>
    decreases |log|
  {
    if log == [] then [] else
      var n := |log| - 1;
      Sends(log[..n]) + if log[n].Sent? then [log[n]] else []
  }

  // ---------------------------------------------------------------- what operators answer

  /** Whether an operator on two integers takes its fast path. */
  predicate IsFast(limit: nat, op: BinOp, a: int, b: int) {
    && 0 - limit <= a < limit && 0 - limit <= b < limit
    && (op == Add ==> 0 - limit <= a + b < limit) && (op == Sub ==> 0 - limit <= a - b < limit)
  }

  /** On its fast path an operator answers what its symbol says of the left and the right operand, in a
      group or not; off it, it sends its message to the left operand with the right one. */
  lemma OperatorAnswers(env: Env, entries: seq<Entry>, m: Machine, op: BinOp, below: seq<Value>, a: int, b: int)
    requires m.status == Running && m.stack == below + [Int(a), Int(b)]
    ensures var r := Step(env, entries, m, BinInt(op));
      if IsFast(env.limit, op, a, b) then
        && r == m.(stack := r.stack) && |r.stack| == |below| + 1 && r.stack[..|below|] == below
        && (op == Add ==> r.stack[|below|] == Int(a + b)) && (op == Sub ==> r.stack[|below|] == Int(a - b))
        && (op == Le ==> r.stack[|below|] == Bool(a <= b)) && (op == Lt ==> r.stack[|below|] == Bool(a < b))
        && (op == Ge ==> r.stack[|below|] == Bool(a >= b)) && (op == Gt ==> r.stack[|below|] == Bool(a > b))
      else
        var f := Flush(env, entries, m);
        f.status == Running ==> r.log == f.log + [Sent(f.world, op, Int(a), Int(b))]
  {
    assert m.stack[..|m.stack| - 2] == below;
  }

  function Amount(e: Node): int {
    match e
    case IntLit(n) => n
    case Binary(Add, l, r) => Amount(l) + Amount(r)
    case Binary(Sub, l, r) => Amount(l) - Amount(r)
    case _ => 0
  }

  /** Sums and differences of literals, all of whose parts are SmallIntegers. */
  predicate Arithmetic(limit: nat, e: Node) {
    && 0 - limit <= Amount(e) < limit
    && (e.IntLit? || (e.Binary? && (e.op == Add || e.op == Sub) && Arithmetic(limit, e.left) && Arithmetic(limit, e.right)))
  }

  lemma {:induction false} ArithmeticPushed(env: Env, entries: seq<Entry>, m: Machine, e: Node, sc: Scope)
    requires m.status == Running && Arithmetic(env.limit, e)
    ensures Exec(env, entries, m, ValueCode(e, sc)) == m.(stack := m.stack + [Int(Amount(e))])
    decreases e
  {
    if e.IntLit? {
      StepIsExec(env, entries, m, PushValue(Int(e.n)));
    } else {
      var l, r := ValueCode(e.left, sc), ValueCode(e.right, sc);
      ArithmeticPushed(env, entries, m, e.left, sc);
      var m1 := m.(stack := m.stack + [Int(Amount(e.left))]);
      ArithmeticPushed(env, entries, m1, e.right, sc);
      var m2 := m.(stack := m.stack + [Int(Amount(e.left)), Int(Amount(e.right))]);
      assert m1.stack + [Int(Amount(e.right))] == m2.stack;
      ExecParts(env, entries, m, l + r, [BinInt(e.op)]);
      ExecParts(env, entries, m, l, r);
      StepIsExec(env, entries, m2, BinInt(e.op));
      OperatorAnswers(env, entries, m2, e.op, m.stack, Amount(e.left), Amount(e.right));
      hide Step;
      var end := Step(env, entries, m2, BinInt(e.op));
      assert end.stack == m.stack + [Int(Amount(e))];
    }
  }

  /** `x := e.` with such a value leaves that number in the object's variable and as the statement's value. */
  lemma ArithmeticStored(env: Env, entries: seq<Entry>, m: Machine, s: Node, sc: Scope)
    requires m.status == Running && env.hasSelf && IsInstVarAssignment(s, sc) && Arithmetic(env.limit, s.value)
    ensures var r := Exec(env, entries, m, StatementCode(s, sc));
      && r.status == Running && r.world == m.world.(attrs := m.world.attrs[s.name := Int(Amount(s.value))])
      && r.stack == m.stack + [Int(Amount(s.value))]
  {
    var code := ValueCode(s.value, sc);
    var v := Int(Amount(s.value));
    ArithmeticPushed(env, entries, m, s.value, sc);
    ExecParts(env, entries, m, code, [Dup, StoreInstVar(s.name)]);
    var m1 := m.(stack := m.stack + [v]);
    assert [Dup, StoreInstVar(s.name)] == [Dup] + [StoreInstVar(s.name)];
    ExecParts(env, entries, m1, [Dup], [StoreInstVar(s.name)]);
    StepIsExec(env, entries, m1, Dup);
    var m2 := Push(m1, v);
    StepIsExec(env, entries, m2, StoreInstVar(s.name));
    assert m2.stack[..|m2.stack| - 1] == m1.stack;
  }

  // ---------------------------------------------------------------- grouped and plain runs do the same

  lemma SendsAdd(log: seq<Event>, e: Event)
    ensures Sends(log + [e]) == Sends(log) + if e.Sent? then [e] else []
  {
    assert (log + [e])[..|log|] == log;
  }

  lemma {:induction false} ExecParts(env: Env, entries: seq<Entry>, m: Machine, a: seq<Instr>, b: seq<Instr>)
    ensures Exec(env, entries, m, a + b) == Exec(env, entries, Exec(env, entries, m, a), b)
    decreases |a|
  {
    hide Step;
    if a == [] {
      assert a + b == b;
    } else {
      assert (a + b)[1..] == a[1..] + b;
      ExecParts(env, entries, Step(env, entries, m, a[0]), a[1..], b);
    }
  }

  lemma {:induction false} HaltedStays(env: Env, entries: seq<Entry>, m: Machine, code: seq<Instr>)
    requires m.status != Running
    ensures Exec(env, entries, m, code) == m
    decreases |code|
  {
    if code != [] { HaltedStays(env, entries, m, code[1..]); }
  }

  /** Both frames ended the same way; or both go on, with the same stack and no write pending. */
  predicate Same(g: Machine, s: Machine) {
    && g.status == s.status && g.world == s.world && Sends(g.log) == Sends(s.log)
    && (g.status == Running ==> g.stack == s.stack && !g.active && !s.active)
  }

  predicate Halted(g: Machine, s: Machine) { g.status != Running && Same(g, s) }

  /** A run under way: its names, its first entry, the stack below it, the log when it began, and
      whether the engine took it as a group. */
  datatype Context = Context(names: seq<string>, first: nat, lower: seq<Value>, log: seq<Event>, grouped: bool)

  /** The frame that groups holds the values of the writes so far; the plain one has made them. */
  predicate InRun(env: Env, entries: seq<Entry>, c: Context, vals: seq<Value>, temps: seq<Value>, g: Machine, s: Machine) {
    && g.status == Running && s.status == Running && !s.active
    && |vals| <= |c.names| && EntriesFrom(entries, c)
    && g.stack == c.lower + vals + temps && s.stack == c.lower + temps
    && Sends(g.log) == Sends(s.log)
    && if g.active then Holds(env, c, vals, g, s)
       else g.world == s.world && (c.grouped ==> |Sends(g.log)| > |Sends(c.log)|)
  }

  predicate Holds(env: Env, c: Context, vals: seq<Value>, g: Machine, s: Machine) {
    && |vals| <= |c.names| && env.hasSelf && g.base == |c.lower| && g.pending == |vals| && g.first == c.first
    && s.world == g.world.(attrs := Written(g.world.attrs, c.names[..|vals|], vals))
    && g.log == c.log
  }

  lemma {:induction false} WrittenElsewhere(attrs: map<string, Value>, names: seq<string>, values: seq<Value>, x: string)
    requires |names| == |values| && x !in names
    ensures x in Written(attrs, names, values) <==> x in attrs
    ensures x in attrs ==> Written(attrs, names, values)[x] == attrs[x]
    decreases |names|
  {
    if names != [] {
      var n := |names| - 1;
      assert names[n] in names;
      WrittenElsewhere(attrs, names[..n], values[..n], x);
    }
  }

  lemma WrittenNext(attrs: map<string, Value>, names: seq<string>, values: seq<Value>, k: nat)
    requires k < |values| <= |names|
    ensures Written(attrs, names[..k + 1], values[..k + 1]) == Written(attrs, names[..k], values[..k])[names[k] := values[k]]
  {
    assert names[..k + 1][..k] == names[..k] && values[..k + 1][..k] == values[..k];
  }

  predicate EntriesFrom(entries: seq<Entry>, c: Context) {
    c.first + |c.names| <= |entries| && EntryNames(entries, c.first, |c.names|) == c.names
  }

  lemma NameOf(entries: seq<Entry>, c: Context, k: nat)
    requires EntriesFrom(entries, c) && k < |c.names|
    ensures entries[c.first + k].name == c.names[k]
  {
    assert EntryNames(entries, c.first, |c.names|)[k] == entries[c.first + k].name;
  }

  /** Making the pending writes one by one leaves the object as the whole run of them would. */
  lemma {:induction false} FlushWrites(env: Env, entries: seq<Entry>, m: Machine, c: Context, vals: seq<Value>, tail: seq<Value>, k: nat,
                                       attrs: map<string, Value>)
    requires m.status == Running && env.hasSelf && k <= |vals| <= |c.names| && EntriesFrom(entries, c)
    requires m.first == c.first && m.base == |c.lower| && m.stack == c.lower + vals + tail
    requires m.world.attrs == Written(attrs, c.names[..k], vals[..k])
    ensures var f := FlushFrom(env, entries, m, |vals|, k);
            && f == m.(world := m.world.(attrs := Written(attrs, c.names[..|vals|], vals)), log := f.log)
            && Sends(f.log) == Sends(m.log)
    decreases |vals| - k
  {
    hide Written, EntriesFrom, Sends;
    if k == |vals| {
      assert vals[..k] == vals;
    } else {
      NameOf(entries, c, k);
      var name, v := c.names[k], vals[k];
      assert m.stack[m.base + k] == v;
      var w := Write(env, m, name, v);
      SendsAdd(m.log, Published(w.world.attrs));
      WrittenNext(attrs, c.names, vals, k);
      FlushWrites(env, entries, w, c, vals, tail, k + 1, attrs);
      assert FlushFrom(env, entries, m, |vals|, k) == FlushFrom(env, entries, w, |vals|, k + 1) by { hide *; FlushOne(env, entries, m, c, |vals|, k, v); }
    }
  }

  lemma FlushOne(env: Env, entries: seq<Entry>, m: Machine, c: Context, pending: nat, k: nat, v: Value)
    requires m.status == Running && k < pending <= |c.names| && EntriesFrom(entries, c) && m.first == c.first
    requires m.base + k < |m.stack| && m.stack[m.base + k] == v
    ensures FlushFrom(env, entries, m, pending, k) == FlushFrom(env, entries, Write(env, m, c.names[k], v), pending, k + 1)
  {
    NameOf(entries, c, k);
    hide Write, EntryNames;
  }

  lemma FlushSim(env: Env, entries: seq<Entry>, c: Context, vals: seq<Value>, temps: seq<Value>, g: Machine, s: Machine)
    requires InRun(env, entries, c, vals, temps, g, s)
    ensures var f := Flush(env, entries, g);
            && f == g.(active := false, pending := f.pending, world := s.world, log := f.log)
            && Sends(f.log) == Sends(g.log) && (c.grouped ==> |Sends(f.log)| + 1 > |Sends(c.log)|)
  {
    hide EntriesFrom, Sends;
    if g.active {
      var m := g.(active := false, pending := 0);
      assert c.names[..0] == [] && vals[..0] == [];
      FlushWrites(env, entries, m, c, vals, temps, 0, g.world.attrs);
    }
  }

  /** One operator: it hits in both frames, or misses in both, and then the message sees one world. */
  lemma BinarySim(env: Env, entries: seq<Entry>, op: BinOp, l: Value, r: Value, c: Context, vals: seq<Value>, temps: seq<Value>,
                  g: Machine, s: Machine) returns (v: Option<Value>)
    requires InRun(env, entries, c, vals, temps + [l, r], g, s)
    ensures var g', s' := Operate(env, entries, g, op), Operate(env, entries, s, op);
            (g'.active ==> g.active)
            && if v.Some? then InRun(env, entries, c, vals, temps + [v.value], g', s') else Halted(g', s')
  {
    hide Fast, Flush, EntriesFrom, Written, Sends;
    var n, k := |g.stack|, |s.stack|;
    assert g.stack[n - 2] == l && g.stack[n - 1] == r && s.stack[k - 2] == l && s.stack[k - 1] == r;
    assert g.stack[..n - 2] == c.lower + vals + temps && s.stack[..k - 2] == c.lower + temps;
    v := Fast(env.limit, op, l, r);
    if v.Some? {
      assert c.lower + vals + temps + [v.value] == c.lower + vals + (temps + [v.value]);
      assert c.lower + temps + [v.value] == c.lower + (temps + [v.value]);
    } else {
      v := MissSim(env, entries, op, l, r, c, vals, temps, g, s);
    }
  }

  lemma MissSim(env: Env, entries: seq<Entry>, op: BinOp, l: Value, r: Value, c: Context, vals: seq<Value>, temps: seq<Value>,
                g: Machine, s: Machine) returns (v: Option<Value>)
    requires InRun(env, entries, c, vals, temps + [l, r], g, s) && Fast(env.limit, op, l, r) == None
    requires g.stack[..|g.stack| - 2] == c.lower + vals + temps && s.stack[..|s.stack| - 2] == c.lower + temps
    requires g.stack[|g.stack| - 2] == l && g.stack[|g.stack| - 1] == r && s.stack[|s.stack| - 2] == l && s.stack[|s.stack| - 1] == r
    ensures var g', s' := Operate(env, entries, g, op), Operate(env, entries, s, op);
            !g'.active && if v.Some? then InRun(env, entries, c, vals, temps + [v.value], g', s') else Halted(g', s')
  {
    hide Fast, EntriesFrom, Written;
    FlushSim(env, entries, c, vals, temps + [l, r], g, s);
    FlushIdle(env, entries, s);
    MissIs(env, entries, g, op, c.lower + vals + temps);
    MissIs(env, entries, s, op, c.lower + temps);
    var f := Flush(env, entries, g);
    SendsAdd(f.log, Sent(s.world, op, l, r));
    SendsAdd(s.log, Sent(s.world, op, l, r));
    hide Operate, Flush, Sends;
    v := AnswerSim(env, entries, c, vals, temps, f.(log := f.log + [Sent(s.world, op, l, r)]),
                   s.(log := s.log + [Sent(s.world, op, l, r)]), env.send(s.world, op, l, r));
  }

  lemma MissIs(env: Env, entries: seq<Entry>, m: Machine, op: BinOp, below: seq<Value>)
    requires |m.stack| >= 2 && m.stack[..|m.stack| - 2] == below && Flush(env, entries, m).status == Running
    requires Fast(env.limit, op, m.stack[|m.stack| - 2], m.stack[|m.stack| - 1]) == None
    ensures var f, l, r := Flush(env, entries, m), m.stack[|m.stack| - 2], m.stack[|m.stack| - 1];
            Operate(env, entries, m, op)
            == Answered(f.(log := f.log + [Sent(f.world, op, l, r)]), below, env.send(f.world, op, l, r))
  {
    hide Fast, Flush, Answered;
  }

  /** The reply to a message sent from the same world reaches both frames. */
  lemma AnswerSim(env: Env, entries: seq<Entry>, c: Context, vals: seq<Value>, temps: seq<Value>, f: Machine, s: Machine, reply: Reply)
    returns (v: Option<Value>)
    requires f.status == Running && s.status == Running && !f.active && !s.active && |vals| <= |c.names| && EntriesFrom(entries, c)
    requires f.world == s.world && Sends(f.log) == Sends(s.log) && (c.grouped ==> |Sends(f.log)| > |Sends(c.log)|)
    ensures var g', s' := Answered(f, c.lower + vals + temps, reply), Answered(s, c.lower + temps, reply);
            !g'.active && if v.Some? then InRun(env, entries, c, vals, temps + [v.value], g', s') else Halted(g', s')
  {
    hide EntriesFrom, Sends;
    match reply
    case Returned(w, a) =>
      v := Some(a);
      assert c.lower + vals + temps + [a] == c.lower + vals + (temps + [a]);
      assert c.lower + temps + [a] == c.lower + (temps + [a]);
    case Left(w) => v := None;
  }

  lemma FlushIdle(env: Env, entries: seq<Entry>, m: Machine)
    requires !m.active
    ensures Flush(env, entries, m) == m
  {
  }

  lemma PushSim(env: Env, entries: seq<Entry>, i: Instr, c: Context, vals: seq<Value>, temps: seq<Value>, g: Machine, s: Machine)
    returns (v: Option<Value>)
    requires InRun(env, entries, c, vals, temps, g, s)
    requires i.PushValue? || i.PushSelf? || i.PushVar? || (i.PushInstVar? && (g.active ==> i.name !in c.names[..|vals|]))
             || (i.Evaluate? && !g.active)
    ensures var g', s' := Step(env, entries, g, i), Step(env, entries, s, i);
            (g'.active ==> g.active)
            && if v.Some? then InRun(env, entries, c, vals, temps + [v.value], g', s') else Halted(g', s')
  {
    if i.PushInstVar? && g.active { WrittenElsewhere(g.world.attrs, c.names[..|vals|], vals, i.name); }
    var s' := Step(env, entries, s, i);
    if s'.status == Running {
      var a := s'.stack[|s'.stack| - 1];
      v := Some(a);
      assert c.lower + vals + temps + [a] == c.lower + vals + (temps + [a]);
      assert c.lower + temps + [a] == c.lower + (temps + [a]);
    } else {
      v := None;
    }
  }

  lemma StepIsExec(env: Env, entries: seq<Entry>, m: Machine, i: Instr)
    ensures Exec(env, entries, m, [i]) == Step(env, entries, m, i)
  {
    hide Step;
    assert [i][1..] == [];
  }

  /** The value of one assignment. */
  lemma {:induction false} ValueSim(env: Env, entries: seq<Entry>, e: Node, sc: Scope, c: Context, vals: seq<Value>, temps: seq<Value>,
                                    g: Machine, s: Machine) returns (v: Option<Value>)
    requires InRun(env, entries, c, vals, temps, g, s)
    requires g.active ==> IsInert(e, (set x | x in c.names[..|vals|]), sc)
    ensures var g', s' := Exec(env, entries, g, ValueCode(e, sc)), Exec(env, entries, s, ValueCode(e, sc));
            (g'.active ==> g.active)
            && if v.Some? then InRun(env, entries, c, vals, temps + [v.value], g', s') else Halted(g', s')
    decreases e
  {
    hide InRun, Step, Exec;
    if e.Binary? {
      var cl, cr, op := ValueCode(e.left, sc), ValueCode(e.right, sc), [BinInt(e.op)];
      ExecParts(env, entries, g, cl + cr, op);
      ExecParts(env, entries, g, cl, cr);
      ExecParts(env, entries, s, cl + cr, op);
      ExecParts(env, entries, s, cl, cr);
      v := OperandsSim(env, entries, e, sc, c, vals, temps, g, s);
    } else {
      var i := ValueCode(e, sc)[0];
      assert ValueCode(e, sc) == [i];
      StepIsExec(env, entries, g, i);
      StepIsExec(env, entries, s, i);
      v := PushSim(env, entries, i, c, vals, temps, g, s);
    }
  }

  lemma {:induction false} OperandsSim(env: Env, entries: seq<Entry>, e: Node, sc: Scope, c: Context, vals: seq<Value>, temps: seq<Value>,
                                       g: Machine, s: Machine) returns (v: Option<Value>)
    requires e.Binary? && InRun(env, entries, c, vals, temps, g, s)
    requires g.active ==> IsInert(e, (set x | x in c.names[..|vals|]), sc)
    ensures var cl, cr, op := ValueCode(e.left, sc), ValueCode(e.right, sc), [BinInt(e.op)];
            var g', s' := Exec(env, entries, Exec(env, entries, Exec(env, entries, g, cl), cr), op),
                          Exec(env, entries, Exec(env, entries, Exec(env, entries, s, cl), cr), op);
            (g'.active ==> g.active)
            && if v.Some? then InRun(env, entries, c, vals, temps + [v.value], g', s') else Halted(g', s')
    decreases e, 0
  {
    hide Step, Exec;
    var cl, cr, op := ValueCode(e.left, sc), ValueCode(e.right, sc), [BinInt(e.op)];
    var l := ValueSim(env, entries, e.left, sc, c, vals, temps, g, s);
    var g1, s1 := Exec(env, entries, g, cl), Exec(env, entries, s, cl);
    if l == None {
      HaltedStays(env, entries, g1, cr); HaltedStays(env, entries, g1, op);
      HaltedStays(env, entries, s1, cr); HaltedStays(env, entries, s1, op);
      return None;
    }
    var r := ValueSim(env, entries, e.right, sc, c, vals, temps + [l.value], g1, s1);
    var g2, s2 := Exec(env, entries, g1, cr), Exec(env, entries, s1, cr);
    if r == None {
      HaltedStays(env, entries, g2, op);
      HaltedStays(env, entries, s2, op);
      return None;
    }
    assert temps + [l.value] + [r.value] == temps + [l.value, r.value];
    v := BinarySim(env, entries, e.op, l.value, r.value, c, vals, temps, g2, s2);
    StepIsExec(env, entries, g2, BinInt(e.op));
    StepIsExec(env, entries, s2, BinInt(e.op));
    BinaryIsStep(env, entries, g2, e.op);
    BinaryIsStep(env, entries, s2, e.op);
  }

  lemma BinaryIsStep(env: Env, entries: seq<Entry>, m: Machine, op: BinOp)
    requires m.status == Running
    ensures Step(env, entries, m, BinInt(op)) == Operate(env, entries, m, op)
  {
    hide Operate;
  }

  /** The plain store of a run's value, its result dropped unless it is the last. */
  function StoreCode(name: string, last: bool): seq<Instr> {
    [Dup, StoreInstVar(name)] + if last then [] else [Pop]
  }

  lemma StoreEffect(env: Env, entries: seq<Entry>, s: Machine, lower: seq<Value>, v: Value, name: string, last: bool)
    requires s.status == Running && s.stack == lower + [v]
    ensures Exec(env, entries, s, StoreCode(name, last))
         == if env.hasSelf then Write(env, s, name, v).(stack := if last then lower + [v] else lower)
            else s.(status := NoSelf)
  {
    var a, b := Push(s, v), Write(env, s, name, v);
    assert a.stack[..|a.stack| - 1] == s.stack;
    assert Step(env, entries, s, Dup) == a && Step(env, entries, a, StoreInstVar(name)) == b;
    StepIsExec(env, entries, s, Dup);
    StepIsExec(env, entries, a, StoreInstVar(name));
    ExecParts(env, entries, s, [Dup], [StoreInstVar(name)]);
    assert [Dup] + [StoreInstVar(name)] == [Dup, StoreInstVar(name)];
    hide Exec;
    if last {
      assert StoreCode(name, last) == [Dup, StoreInstVar(name)];
    } else {
      ExecParts(env, entries, s, [Dup, StoreInstVar(name)], [Pop]);
      StepIsExec(env, entries, b, Pop);
      assert (lower + [v])[..|lower|] == lower;
    }
  }

  /** A write of a run that is not its last. */
  lemma WriteSim(env: Env, entries: seq<Entry>, c: Context, vals: seq<Value>, v: Value, g: Machine, s: Machine) returns (c': Context)
    requires InRun(env, entries, c, vals, [v], g, s) && |vals| + 1 < |c.names|
    requires entries[c.first + |vals|] == Entry(c.names[|vals|], |vals|, |c.names|)
    requires vals == [] ==> !g.active && !c.grouped
    ensures c' == if vals == [] then c.(grouped := env.hasSelf && !env.attached(g.world), log := g.log) else c
    ensures var g', s' := Step(env, entries, g, IvarGroup(c.first + |vals|)), Exec(env, entries, s, StoreCode(c.names[|vals|], false));
            Halted(g', s') || InRun(env, entries, c', vals + [v], [], g', s')
  {
    var k := |vals|;
    c' := if vals == [] then c.(grouped := env.hasSelf && !env.attached(g.world), log := g.log) else c;
    StoreEffect(env, entries, s, c.lower, v, c.names[k], false);
    hide Exec, StoreCode, EntriesFrom, Written, Sends;
    assert g.stack[|g.stack| - 1] == v;
    assert c.lower + (vals + [v]) + [] == c.lower + vals + [v] && c.lower + [] == c.lower;
    assert EntriesFrom(entries, c') by { EntriesOf(entries, c, c'); }
    var b := if vals == [] then BeginRun(env, g, c.first) else g;
    assert Step(env, entries, g, IvarGroup(c.first + k))
        == if b.active then b.(pending := b.pending + 1) else Write(env, b, c.names[k], v) by { hide InRun, Write; }
    hide Step, Halted;
    if b.active {
      if vals == [] { NoneWritten(g.world.attrs, c.names); }
      MoreWritten(g.world.attrs, c.names, vals, v);
      SendsAdd(s.log, Published(s.world.attrs[c.names[k] := v]));
    } else {
      SendsAdd(g.log, Published(s.world.attrs[c.names[k] := v]));
      SendsAdd(s.log, Published(s.world.attrs[c.names[k] := v]));
    }
  }

  lemma EntriesOf(entries: seq<Entry>, c: Context, d: Context)
    requires EntriesFrom(entries, c) && d.names == c.names && d.first == c.first
    ensures EntriesFrom(entries, d)
  {
  }

  lemma NoneWritten(attrs: map<string, Value>, names: seq<string>)
    ensures Written(attrs, names[..0], []) == attrs
  {
  }

  lemma MoreWritten(attrs: map<string, Value>, names: seq<string>, vals: seq<Value>, v: Value)
    requires |vals| < |names|
    ensures Written(attrs, names[..|vals| + 1], vals + [v]) == Written(attrs, names[..|vals|], vals)[names[|vals|] := v]
  {
    var k := |vals|;
    assert names[..k + 1][..k] == names[..k] && (vals + [v])[..k] == vals;
  }

  /** The last write: both frames are left with the same object and the run's last value. A run that
      the engine took as a group, and that sent no message, has published the object once. */
  lemma LastSim(env: Env, entries: seq<Entry>, c: Context, vals: seq<Value>, v: Value, g: Machine, s: Machine)
    requires InRun(env, entries, c, vals, [v], g, s) && |vals| + 1 == |c.names|
    requires entries[c.first + |vals|] == Entry(c.names[|vals|], |vals|, |c.names|)
    ensures var g', s' := Step(env, entries, g, IvarGroupEnd(c.first + |vals|)), Exec(env, entries, s, StoreCode(c.names[|vals|], true));
            && Same(g', s')
            && (g'.status == Running && c.grouped && Sends(g'.log) == Sends(c.log) ==> g'.log == c.log + [Published(g'.world.attrs)])
  {
    var k := |vals|;
    StoreEffect(env, entries, s, c.lower, v, c.names[k], true);
    GroupEndEffect(env, entries, c, vals, v, g, s);
    var w := s.world.attrs[c.names[k] := v];
    SendsAdd(g.log, Published(w));
    SendsAdd(s.log, Published(w));
    hide Exec, StoreCode, Sends, EntriesFrom, Written, GroupEnd;
    assert Step(env, entries, g, IvarGroupEnd(c.first + k)) == GroupEnd(env, entries, g, c.first + k) by { hide InRun; }
  }

  /** What the last instruction of a run leaves: the object with all of the run's writes. */
  lemma GroupEndEffect(env: Env, entries: seq<Entry>, c: Context, vals: seq<Value>, v: Value, g: Machine, s: Machine)
    requires InRun(env, entries, c, vals, [v], g, s) && |vals| + 1 == |c.names|
    requires entries[c.first + |vals|] == Entry(c.names[|vals|], |vals|, |c.names|)
    ensures var e := GroupEnd(env, entries, g, c.first + |vals|);
            var attrs := s.world.attrs[c.names[|vals|] := v];
            e == if !env.hasSelf then g.(status := NoSelf)
                 else g.(active := false, pending := e.pending, stack := c.lower + [v], world := s.world.(attrs := attrs),
                         log := g.log + [Published(attrs)])
  {
    hide Sends, Written;
    var k, n := |vals|, |g.stack|;
    assert g.stack[n - 1] == v && g.stack[n - (k + 1)..] == vals + [v] && g.stack[..n - (k + 1)] == c.lower;
    MoreWritten(g.world.attrs, c.names, vals, v);
    assert c.names[..k + 1] == c.names;
    if g.active {
      assert EntryNames(entries, c.first, k + 1) == c.names;
      hide EntriesFrom;
    } else {
      hide EntriesFrom;
    }
  }

  /** The code of a run's statements from position `k` on when each is stored by itself. */
  function PlainRunCode(run: seq<Node>, sc: Scope, k: nat): seq<Instr>
    requires AllAssign(run, sc) && k <= |run|
    decreases |run| - k
  {
    if k == |run| then []
    else ValueCode(run[k].value, sc) + StoreCode(run[k].name, k + 1 == |run|) + PlainRunCode(run, sc, k + 1)
  }

  predicate EntriesAt(entries: seq<Entry>, first: nat, run: seq<Node>, sc: Scope) {
    AllAssign(run, sc) && first + |run| <= |entries| && entries[first..first + |run|] == Entries(run, sc)
  }

  lemma EntryAt(entries: seq<Entry>, first: nat, run: seq<Node>, sc: Scope, k: nat)
    requires EntriesAt(entries, first, run, sc) && k < |run|
    ensures entries[first + k] == Entry(run[k].name, k, |run|) && Names(run, sc)[k] == run[k].name
  {
    assert entries[first..first + |run|][k] == entries[first + k];
  }

  lemma EntryNamesAt(entries: seq<Entry>, first: nat, run: seq<Node>, sc: Scope)
    requires EntriesAt(entries, first, run, sc)
    ensures EntryNames(entries, first, |run|) == Names(run, sc)
  {
    forall k | 0 <= k < |run| ensures EntryNames(entries, first, |run|)[k] == Names(run, sc)[k] {
      EntryAt(entries, first, run, sc, k);
    }
  }

  lemma GroupParts(env: Env, entries: seq<Entry>, m: Machine, run: seq<Node>, sc: Scope, k: nat, first: nat)
    requires AllAssign(run, sc) && k < |run|
    ensures var m1 := Exec(env, entries, m, ValueCode(run[k].value, sc));
            var m2 := Step(env, entries, m1, if k + 1 < |run| then IvarGroup(first + k) else IvarGroupEnd(first + k));
            Exec(env, entries, m, GroupCode(run, sc, k, first)) == Exec(env, entries, m2, GroupCode(run, sc, k + 1, first))
  {
    hide Step, Exec, ValueCode;
    var a := ValueCode(run[k].value, sc);
    var i := if k + 1 < |run| then IvarGroup(first + k) else IvarGroupEnd(first + k);
    ExecParts(env, entries, m, a + [i], GroupCode(run, sc, k + 1, first));
    ExecParts(env, entries, m, a, [i]);
    StepIsExec(env, entries, Exec(env, entries, m, a), i);
  }

  lemma PlainParts(env: Env, entries: seq<Entry>, m: Machine, run: seq<Node>, sc: Scope, k: nat)
    requires AllAssign(run, sc) && k < |run|
    ensures var m1 := Exec(env, entries, m, ValueCode(run[k].value, sc));
            var m2 := Exec(env, entries, m1, StoreCode(run[k].name, k + 1 == |run|));
            Exec(env, entries, m, PlainRunCode(run, sc, k)) == Exec(env, entries, m2, PlainRunCode(run, sc, k + 1))
  {
    hide Step, Exec, ValueCode, StoreCode;
    var a, st := ValueCode(run[k].value, sc), StoreCode(run[k].name, k + 1 == |run|);
    ExecParts(env, entries, m, a + st, PlainRunCode(run, sc, k + 1));
    ExecParts(env, entries, m, a, st);
  }

  predicate OnePublication(c: Context, g: Machine) {
    g.status == Running && c.grouped && Sends(g.log) == Sends(c.log) ==> g.log == c.log + [Published(g.world.attrs)]
  }

  /** The rest of a run, from position `k` on. */
  lemma {:induction false} RestSim(env: Env, entries: seq<Entry>, run: seq<Node>, sc: Scope, c: Context, vals: seq<Value>, g: Machine, s: Machine)
    requires IsRun(run, sc) && EntriesAt(entries, c.first, run, sc) && c.names == Names(run, sc)
    requires 1 <= |vals| < |run| && InRun(env, entries, c, vals, [], g, s)
    ensures var g', s' := Exec(env, entries, g, GroupCode(run, sc, |vals|, c.first)), Exec(env, entries, s, PlainRunCode(run, sc, |vals|));
            Same(g', s') && OnePublication(c, g')
    decreases |run| - |vals|
  {
    hide Step, Exec, InRun, Same, StoreCode, ValueCode, IsInert, EntriesAt;
    var k, n := |vals|, |run|;
    GroupParts(env, entries, g, run, sc, k, c.first);
    PlainParts(env, entries, s, run, sc, k);
    EntryAt(entries, c.first, run, sc, k);
    var v := ValueSim(env, entries, run[k].value, sc, c, vals, [], g, s);
    var g1, s1 := Exec(env, entries, g, ValueCode(run[k].value, sc)), Exec(env, entries, s, ValueCode(run[k].value, sc));
    if v == None {
      RestHalts(env, entries, run, sc, k, c.first, g1, s1);
      HaltedIsSame(c, g1, s1);
    } else if k + 1 < n {
      assert [] + [v.value] == [v.value];
      var c' := WriteSim(env, entries, c, vals, v.value, g1, s1);
      var g2, s2 := Step(env, entries, g1, IvarGroup(c.first + k)), Exec(env, entries, s1, StoreCode(run[k].name, false));
      if Halted(g2, s2) {
        BothStay(env, entries, g2, s2, GroupCode(run, sc, k + 1, c.first), PlainRunCode(run, sc, k + 1));
        HaltedIsSame(c, g2, s2);
      } else {
        RestSim(env, entries, run, sc, c, vals + [v.value], g2, s2);
      }
    } else {
      assert [] + [v.value] == [v.value];
      LastSim(env, entries, c, vals, v.value, g1, s1);
      NothingLeft(env, entries, Step(env, entries, g1, IvarGroupEnd(c.first + k)));
      NothingLeft(env, entries, Exec(env, entries, s1, StoreCode(run[k].name, true)));
    }
  }

  lemma NothingLeft(env: Env, entries: seq<Entry>, m: Machine)
    ensures Exec(env, entries, m, []) == m
  {
  }

  lemma HaltedIsSame(c: Context, g: Machine, s: Machine)
    requires Halted(g, s)
    ensures Same(g, s) && OnePublication(c, g)
  {
  }

  lemma BothStay(env: Env, entries: seq<Entry>, g: Machine, s: Machine, a: seq<Instr>, b: seq<Instr>)
    requires Halted(g, s)
    ensures Exec(env, entries, g, a) == g && Exec(env, entries, s, b) == s
  {
    HaltedStays(env, entries, g, a);
    HaltedStays(env, entries, s, b);
  }

  /** When a run's value ended the frame, nothing after it runs. */
  lemma RestHalts(env: Env, entries: seq<Entry>, run: seq<Node>, sc: Scope, k: nat, first: nat, g: Machine, s: Machine)
    requires AllAssign(run, sc) && k < |run| && Halted(g, s)
    ensures Exec(env, entries, Step(env, entries, g, if k + 1 < |run| then IvarGroup(first + k) else IvarGroupEnd(first + k)),
                 GroupCode(run, sc, k + 1, first)) == g
    ensures Exec(env, entries, Exec(env, entries, s, StoreCode(run[k].name, k + 1 == |run|)), PlainRunCode(run, sc, k + 1)) == s
  {
    HaltedStays(env, entries, g, GroupCode(run, sc, k + 1, first));
    HaltedStays(env, entries, s, StoreCode(run[k].name, k + 1 == |run|));
    HaltedStays(env, entries, s, PlainRunCode(run, sc, k + 1));
  }

  function Begun(env: Env, run: seq<Node>, sc: Scope, first: nat, lower: seq<Value>, g: Machine): Context
    requires AllAssign(run, sc)
  {
    Context(Names(run, sc), first, lower, g.log, env.hasSelf && !env.attached(g.world))
  }

  /** A run does the same grouped or stored one by one, whatever its first value does, whatever its
      operators' messages do, with or without a debugger or a `self`. */
  lemma RunSim(env: Env, entries: seq<Entry>, run: seq<Node>, sc: Scope, first: nat, g: Machine, s: Machine)
    requires IsRun(run, sc) && EntriesAt(entries, first, run, sc) && Same(g, s) && g.status == Running
    ensures var g', s' := Exec(env, entries, g, GroupCode(run, sc, 0, first)), Exec(env, entries, s, PlainRunCode(run, sc, 0));
            && Same(g', s')
            && OnePublication(Begun(env, run, sc, first, g.stack, Exec(env, entries, g, ValueCode(run[0].value, sc))), g')
  {
    hide Step, Exec, StoreCode, ValueCode, IsInert, EntriesAt;
    var c := Context(Names(run, sc), first, g.stack, g.log, false);
    EntryNamesAt(entries, first, run, sc);
    EntryAt(entries, first, run, sc, 0);
    assert InRun(env, entries, c, [], [], g, s) by { EntriesFit(entries, first, run, sc); }
    hide InRun, Same;
    GroupParts(env, entries, g, run, sc, 0, first);
    PlainParts(env, entries, s, run, sc, 0);
    var v := ValueSim(env, entries, run[0].value, sc, c, [], [], g, s);
    var g1, s1 := Exec(env, entries, g, ValueCode(run[0].value, sc)), Exec(env, entries, s, ValueCode(run[0].value, sc));
    var d := Begun(env, run, sc, first, g.stack, g1);
    if v == None {
      RestHalts(env, entries, run, sc, 0, first, g1, s1);
      HaltedIsSame(d, g1, s1);
    } else {
      FirstWriteSim(env, entries, run, sc, c, v.value, g1, s1);
    }
  }

  lemma EntriesFit(entries: seq<Entry>, first: nat, run: seq<Node>, sc: Scope)
    requires EntriesAt(entries, first, run, sc)
    ensures first + |run| <= |entries|
  {
  }

  lemma FirstWriteSim(env: Env, entries: seq<Entry>, run: seq<Node>, sc: Scope, c: Context, v: Value, g1: Machine, s1: Machine)
    requires IsRun(run, sc) && EntriesAt(entries, c.first, run, sc) && c.names == Names(run, sc) && !c.grouped
    requires InRun(env, entries, c, [], [] + [v], g1, s1) && !g1.active
    ensures var g', s' := Exec(env, entries, Step(env, entries, g1, IvarGroup(c.first + 0)), GroupCode(run, sc, 1, c.first)),
                          Exec(env, entries, Exec(env, entries, s1, StoreCode(run[0].name, false)), PlainRunCode(run, sc, 1));
            Same(g', s') && OnePublication(Begun(env, run, sc, c.first, c.lower, g1), g')
  {
    hide Step, Exec, InRun, Same, StoreCode, IsInert, EntriesAt;
    assert [] + [v] == [v];
    EntryAt(entries, c.first, run, sc, 0);
    var d := WriteSim(env, entries, c, [], v, g1, s1);
    var g2, s2 := Step(env, entries, g1, IvarGroup(c.first)), Exec(env, entries, s1, StoreCode(run[0].name, false));
    if Halted(g2, s2) {
      BothStay(env, entries, g2, s2, GroupCode(run, sc, 1, c.first), PlainRunCode(run, sc, 1));
      HaltedIsSame(d, g2, s2);
    } else {
      assert [] + [v] == [v];
      RestSim(env, entries, run, sc, d, [v], g2, s2);
    }
  }

  // ---------------------------------------------------------------- statement lists

  /** A run's plain code is the run's part of the list's. */
  lemma {:induction false} PlainRunOf(stmts: seq<Node>, sc: Scope, i: nat, n: nat, k: nat)
    requires i + n <= |stmts| && k < n && AllAssign(stmts[i..i + n], sc)
    ensures var rest := PopUnlessLast(i + n, |stmts|) + PlainCode(stmts, sc, i + n);
            PlainCode(stmts, sc, i + k) == PlainRunCode(stmts[i..i + n], sc, k) + rest
    decreases n - k
  {
    hide *;
    var run := stmts[i..i + n];
    OneAssigns(run, sc, k);
    OnePlain(stmts, sc, i + k);
    OneInRun(run, sc, k);
    var pop, after := PopUnlessLast(i + n, |stmts|), PlainCode(stmts, sc, i + n);
    var val, st := ValueCode(run[k].value, sc), [Dup, StoreInstVar(run[k].name)];
    var plain, grouped, more := PlainCode(stmts, sc, i + k), PlainRunCode(run, sc, k), PlainRunCode(run, sc, k + 1);
    if k + 1 < n {
      PlainRunOf(stmts, sc, i, n, k + 1);
      PopsBefore(i + k + 1, |stmts|);
      Regroup(plain, grouped, val, st, [Pop], [], [Pop], more, PlainCode(stmts, sc, i + (k + 1)), pop + after);
    } else {
      EmptyRun(run, sc);
      Regroup(plain, grouped, val, st, [], pop, pop, more, after, pop + after);
    }
  }

  lemma PopsBefore(i: nat, end: nat)
    requires i < end
    ensures PopUnlessLast(i, end) == [Pop]
  {
  }

  lemma OneInRun(run: seq<Node>, sc: Scope, k: nat)
    requires AllAssign(run, sc) && k < |run|
    ensures PlainRunCode(run, sc, k)
         == ValueCode(run[k].value, sc) + ([Dup, StoreInstVar(run[k].name)] + if k + 1 == |run| then [] else [Pop])
            + PlainRunCode(run, sc, k + 1)
  {
    hide ValueCode;
  }

  lemma EmptyRun(run: seq<Node>, sc: Scope)
    requires AllAssign(run, sc)
    ensures PlainRunCode(run, sc, |run|) == []
  {
  }

  lemma OnePlain(stmts: seq<Node>, sc: Scope, i: nat)
    requires i < |stmts| && IsInstVarAssignment(stmts[i], sc)
    ensures PlainCode(stmts, sc, i)
         == ValueCode(stmts[i].value, sc) + [Dup, StoreInstVar(stmts[i].name)] + PopUnlessLast(i + 1, |stmts|) + PlainCode(stmts, sc, i + 1)
  {
    hide ValueCode;
  }

  lemma OneAssigns(run: seq<Node>, sc: Scope, k: nat)
    requires AllAssign(run, sc) && k < |run|
    ensures IsInstVarAssignment(run[k], sc) && run[k].Assignment?
  {
  }

  /** A statement `val`, `st` with the POP after it is in the list's code as it is in the run's. */
  lemma Regroup(plain: seq<Instr>, run: seq<Instr>, val: seq<Instr>, st: seq<Instr>, inner: seq<Instr>, outer: seq<Instr>,
                between: seq<Instr>, more: seq<Instr>, next: seq<Instr>, rest: seq<Instr>)
    requires plain == val + st + between + next && run == val + (st + inner) + more && between == inner + outer
    requires outer + next == more + rest
    ensures plain == run + rest
  {
    assert plain == val + (st + inner) + (outer + next);
    assert run + rest == val + (st + inner) + (more + rest);
  }

  /** Code without groups does the same in two frames that are the same. */
  lemma PlainSame(env: Env, entries: seq<Entry>, s: Node, sc: Scope, g: Machine, p: Machine)
    requires Same(g, p)
    ensures Same(Exec(env, entries, g, StatementCode(s, sc)), Exec(env, entries, p, StatementCode(s, sc)))
  {
    var code := StatementCode(s, sc);
    if g.status != Running {
      BothStay(env, entries, g, p, code, code);
    } else if IsInstVarAssignment(s, sc) {
      StoreSame(env, entries, s, sc, g, p);
    } else {
      StepIsExec(env, entries, g, Evaluate(s));
      StepIsExec(env, entries, p, Evaluate(s));
    }
  }

  lemma StoreSame(env: Env, entries: seq<Entry>, s: Node, sc: Scope, g: Machine, p: Machine)
    requires Same(g, p) && g.status == Running && IsInstVarAssignment(s, sc)
    ensures Same(Exec(env, entries, g, StatementCode(s, sc)), Exec(env, entries, p, StatementCode(s, sc)))
  {
    hide Exec, Step, ValueCode;
    var c := Context([], 0, g.stack, [], false);
    assert InRun(env, entries, c, [], [], g, p);
    var val, st := ValueCode(s.value, sc), StoreCode(s.name, true);
    assert st == [Dup, StoreInstVar(s.name)];
    var v := ValueSim(env, entries, s.value, sc, c, [], [], g, p);
    ExecParts(env, entries, g, val, st);
    ExecParts(env, entries, p, val, st);
    var g1, p1 := Exec(env, entries, g, val), Exec(env, entries, p, val);
    if v == None {
      BothStay(env, entries, g1, p1, st, st);
    } else {
      assert !g1.active;
      assert g1.stack == g.stack + [v.value] && p1.stack == g.stack + [v.value];
      StoreEffect(env, entries, g1, g.stack, v.value, s.name, true);
      StoreEffect(env, entries, p1, g.stack, v.value, s.name, true);
      SendsAdd(g1.log, Published(g1.world.attrs[s.name := v.value]));
      SendsAdd(p1.log, Published(g1.world.attrs[s.name := v.value]));
    }
  }

  lemma PopSame(env: Env, entries: seq<Entry>, g: Machine, p: Machine, i: nat, end: nat)
    requires Same(g, p)
    ensures Same(Exec(env, entries, g, PopUnlessLast(i, end)), Exec(env, entries, p, PopUnlessLast(i, end)))
  {
    if i < end {
      StepIsExec(env, entries, g, Pop);
      StepIsExec(env, entries, p, Pop);
    }
  }

  /** Grouping changes nothing that code can observe: for every list of statements, every behaviour
      of the code it runs and every frame, the result, the object, the messages sent and the world
      each of them saw are the same as with one store for each assignment. */
  lemma {:induction false} GroupsPreserve(env: Env, all: seq<Entry>, stmts: seq<Node>, sc: Scope, i: nat, entries: seq<Entry>,
                                          g: Machine, s: Machine)
    requires i <= |stmts| && GroupedCode(stmts, sc, i, entries).entries <= all && Same(g, s)
    ensures Same(Exec(env, all, g, GroupedCode(stmts, sc, i, entries).code), Exec(env, all, s, PlainCode(stmts, sc, i)))
    decreases |stmts| - i
  {
    hide Exec, Step, Same, ValueCode, GroupCode, StatementCode;
    if i == |stmts| {
      NothingLeft(env, all, g);
      NothingLeft(env, all, s);
    } else if RunLength(stmts, sc, i) > 0 {
      GroupPreserves(env, all, stmts, sc, i, entries, g, s);
    } else {
      var one, pop := StatementCode(stmts[i], sc), PopUnlessLast(i + 1, |stmts|);
      var rest := GroupedCode(stmts, sc, i + 1, entries);
      PlainSame(env, all, stmts[i], sc, g, s);
      var g1, s1 := Exec(env, all, g, one), Exec(env, all, s, one);
      PopSame(env, all, g1, s1, i + 1, |stmts|);
      GroupsPreserve(env, all, stmts, sc, i + 1, entries, Exec(env, all, g1, pop), Exec(env, all, s1, pop));
      ExecParts(env, all, g, one + pop, rest.code);
      ExecParts(env, all, g, one, pop);
      ExecParts(env, all, s, one + pop, PlainCode(stmts, sc, i + 1));
      ExecParts(env, all, s, one, pop);
    }
  }

  lemma EntriesIn(all: seq<Entry>, entries: seq<Entry>, run: seq<Node>, sc: Scope)
    requires AllAssign(run, sc) && entries + Entries(run, sc) <= all
    ensures EntriesAt(all, |entries|, run, sc)
  {
    var es := entries + Entries(run, sc);
    assert all[|entries|..|entries| + |run|] == es[|entries|..|entries| + |run|] == Entries(run, sc);
  }

  lemma {:induction false} GroupPreserves(env: Env, all: seq<Entry>, stmts: seq<Node>, sc: Scope, i: nat, entries: seq<Entry>,
                                          g: Machine, s: Machine)
    requires i < |stmts| && RunLength(stmts, sc, i) > 0
    requires GroupedCode(stmts, sc, i, entries).entries <= all && Same(g, s)
    ensures Same(Exec(env, all, g, GroupedCode(stmts, sc, i, entries).code), Exec(env, all, s, PlainCode(stmts, sc, i)))
    decreases |stmts| - i, 0
  {
    hide Exec, Step, ValueCode, StatementCode, RunLength, Same, IsInert, IsInstVarAssignment, Entries;
    var n := RunLength(stmts, sc, i);
    RunIsAssign(stmts, sc, i);
    var run := stmts[i..i + n];
    var es := entries + Entries(run, sc);
    var rest := GroupedCode(stmts, sc, i + n, es);
    EntriesIn(all, entries, run, sc);
    hide EntriesAt, IsRun, AllAssign;
    var code, pop, plain := GroupCode(run, sc, 0, |entries|), PopUnlessLast(i + n, |stmts|), PlainRunCode(run, sc, 0);
    hide GroupCode, PlainRunCode;
    if g.status == Running {
      RunSim(env, all, run, sc, |entries|, g, s);
    } else {
      assert Halted(g, s);
      BothStay(env, all, g, s, code, plain);
    }
    var g1, s1 := Exec(env, all, g, code), Exec(env, all, s, plain);
    PopSame(env, all, g1, s1, i + n, |stmts|);
    GroupsPreserve(env, all, stmts, sc, i + n, es, Exec(env, all, g1, pop), Exec(env, all, s1, pop));
    ExecParts(env, all, g, code + pop, rest.code);
    ExecParts(env, all, g, code, pop);
    PlainRunOf(stmts, sc, i, n, 0);
    ExecParts(env, all, s, plain, pop + PlainCode(stmts, sc, i + n));
    ExecParts(env, all, s1, pop, PlainCode(stmts, sc, i + n));
  }

  // ---------------------------------------------------------------- the compiler and the engine in place

  lemma GroupStep(run: seq<Node>, sc: Scope, k: nat, first: nat, was: seq<Instr>)
    requires AllAssign(run, sc) && k < |run|
    ensures var i := if k + 1 < |run| then IvarGroup(first + k) else IvarGroupEnd(first + k);
            was + GroupCode(run, sc, k, first) == was + ValueCode(run[k].value, sc) + [i] + GroupCode(run, sc, k + 1, first)
  {
    hide ValueCode;
    var i := if k + 1 < |run| then IvarGroup(first + k) else IvarGroupEnd(first + k);
    var a, rest := ValueCode(run[k].value, sc), GroupCode(run, sc, k + 1, first);
    assert GroupCode(run, sc, k, first) == a + [i] + rest;
    assert was + (a + [i] + rest) == was + a + [i] + rest;
  }

  lemma GroupedStep(stmts: seq<Node>, sc: Scope, i: nat, j: nat, entries: seq<Entry>, after: seq<Entry>, was: seq<Instr>, one: seq<Instr>)
    requires i < |stmts| && j == (if RunLength(stmts, sc, i) > 0 then i + RunLength(stmts, sc, i) else i + 1) <= |stmts|
    requires if RunLength(stmts, sc, i) > 0 then
               AllAssign(stmts[i..j], sc) && one == GroupCode(stmts[i..j], sc, 0, |entries|) && after == entries + Entries(stmts[i..j], sc)
             else one == StatementCode(stmts[i], sc) && after == entries
    ensures var g, rest := GroupedCode(stmts, sc, i, entries), GroupedCode(stmts, sc, j, after);
            was + g.code == was + one + PopUnlessLast(j, |stmts|) + rest.code && g.entries == rest.entries
  {
    hide RunLength, GroupCode, StatementCode, Entries;
    var pop, rest := PopUnlessLast(j, |stmts|), GroupedCode(stmts, sc, j, after);
    assert GroupedCode(stmts, sc, i, entries).code == one + pop + rest.code;
    assert was + (one + pop + rest.code) == was + one + pop + rest.code;
  }

  lemma ListEnd(stmts: seq<Node>, sc: Scope, entries: seq<Entry>)
    ensures GroupedCode(stmts, sc, |stmts|, entries) == Emitted([], entries)
  {
  }

  /** The part of a module's buffer that statements are emitted into. */
  class Body {
    var code: seq<Instr>
    var entries: seq<Entry>

    constructor ()
      ensures code == [] && entries == []
    {
      code, entries := [], [];
    }

    /** Emits the run at `i` as a group, if there is one, and answers its length. */
    method TryEmitInstVarGroup(stmts: seq<Node>, sc: Scope, i: nat) returns (n: nat)
      requires i < |stmts|
      modifies this
      ensures n == RunLength(stmts, sc, i)
      ensures n == 0 ==> code == old(code) && entries == old(entries)
      ensures n > 0 ==> AllAssign(stmts[i..i + n], sc)
      ensures n > 0 ==> code == old(code) + GroupCode(stmts[i..i + n], sc, 0, |old(entries)|)
      ensures n > 0 ==> entries == old(entries) + Entries(stmts[i..i + n], sc)
    {
      if !IsInstVarAssignment(stmts[i], sc) { return 0; }
      var written := {stmts[i].name};
      var j := i + 1;
      while j < |stmts| && j - i < MAX_GROUP && IsInstVarAssignment(stmts[j], sc) && IsInert(stmts[j].value, written, sc)
        invariant i < j <= |stmts| && RunEnd(stmts, sc, i, j, written) == RunEnd(stmts, sc, i, i + 1, {stmts[i].name})
      {
        written := written + {stmts[j].name};
        j := j + 1;
      }
      n := j - i;
      if n < 2 { return 0; }
      RunIsAssign(stmts, sc, i);
      hide RunEnd, IsInert;
      EmitGroup(stmts[i..j], sc);
    }

    method EmitGroup(run: seq<Node>, sc: Scope)
      requires AllAssign(run, sc)
      modifies this
      ensures code == old(code) + GroupCode(run, sc, 0, |old(entries)|)
      ensures entries == old(entries) + Entries(run, sc)
    {
      hide ValueCode, IsInstVarAssignment;
      var n, first := |run|, |entries|;
      for k := 0 to n
        invariant code + GroupCode(run, sc, k, first) == old(code) + GroupCode(run, sc, 0, first)
        invariant |entries| == first + k && entries == old(entries) + Entries(run, sc)[..k]
      {
        ghost var was := code;
        OneAssigns(run, sc, k);
        code := code + ValueCode(run[k].value, sc);
        entries := entries + [Entry(run[k].name, k, n)];
        var entry := |entries| - 1;
        code := code + [if k + 1 < n then IvarGroup(entry) else IvarGroupEnd(entry)];
        GroupStep(run, sc, k, first, was);
      }
      assert Entries(run, sc)[..n] == Entries(run, sc);
      assert code + [] == code;
    }

    /** Emits a statement list, one POP between statements. */
    method EmitStatements(stmts: seq<Node>, sc: Scope)
      modifies this
      ensures code == old(code) + GroupedCode(stmts, sc, 0, old(entries)).code
      ensures entries == GroupedCode(stmts, sc, 0, old(entries)).entries
    {
      hide GroupedCode, RunLength, GroupCode, Entries, StatementCode;
      var i := 0;
      ghost var all := GroupedCode(stmts, sc, 0, entries);
      assert code + all.code == old(code) + all.code;
      while i < |stmts|
        invariant i <= |stmts|
        invariant var rest := GroupedCode(stmts, sc, i, entries);
                  code + rest.code == old(code) + all.code && rest.entries == all.entries
        decreases |stmts| - i
      {
        ghost var was, before, here := code, entries, i;
        var run := TryEmitInstVarGroup(stmts, sc, i);
        if run > 0 {
          i := i + run;
        } else {
          code := code + StatementCode(stmts[i], sc);
          i := i + 1;
        }
        ghost var one := code[|was|..];
        assert code == was + one;
        if i < |stmts| { code := code + [Pop]; }
        GroupedStep(stmts, sc, here, i, before, entries, was, one);
      }
      assert code + [] == code && GroupedCode(stmts, sc, |stmts|, entries) == Emitted([], entries) by { ListEnd(stmts, sc, entries); }
    }
  }

  /** A frame as the engine changes it in place. */
  class Frame {
    const env: Env
    const entries: seq<Entry>
    var status: Status
    var world: World
    var stack: seq<Value>
    var active: bool
    var pending: nat
    var base: nat
    var first: nat
    var log: seq<Event>

    ghost function State(): Machine
      reads this
    {
      Machine(status, world, stack, active, pending, base, first, log)
    }

    constructor (env: Env, entries: seq<Entry>, world: World)
      ensures this.env == env && this.entries == entries
      ensures State() == Machine(Running, world, [], false, 0, 0, 0, [])
    {
      this.env, this.entries := env, entries;
      this.status, this.world, this.stack, this.log := Running, world, [], [];
      this.active, this.pending, this.base, this.first := false, 0, 0, 0;
    }

    method StoreInstVar(name: string, v: Value)
      modifies this
      ensures State() == Write(env, old(State()), name, v)
    {
      if !env.hasSelf {
        status := NoSelf;
      } else {
        world := world.(attrs := world.attrs[name := v]);
        log := log + [Published(world.attrs)];
      }
    }

    /** Makes the pending writes one by one and leaves the group. */
    method FlushInstVarGroup()
      requires active
      modifies this
      ensures State() == Flush(env, entries, old(State()))
    {
      var count := pending;
      active := false;
      pending := 0;
      ghost var start := State();
      var k := 0;
      while status == Running && k < count
        invariant k <= count && FlushFrom(env, entries, State(), count, k) == FlushFrom(env, entries, start, count, 0)
        decreases count - k
      {
        if first + k >= |entries| || base + k >= |stack| {
          status := Crashed;
          return;
        }
        StoreInstVar(entries[first + k].name, stack[base + k]);
        k := k + 1;
      }
    }

    method BinInt(op: BinOp)
      requires status == Running
      modifies this
      ensures State() == Operate(env, entries, old(State()), op)
    {
      hide Fast, Flush;
      var n := |stack|;
      if n < 2 { status := Crashed; return; }
      var l, r := stack[n - 2], stack[n - 1];
      match Fast(env.limit, op, l, r)
      case Some(v) => stack := stack[..n - 2] + [v];
      case None =>
        ghost var was := State();
        if active { FlushInstVarGroup(); }
        assert State() == Flush(env, entries, was) by { if !was.active { FlushIdle(env, entries, was); } }
        FlushKeepsStack(env, entries, was);
        if status != Running { return; }
        log := log + [Sent(world, op, l, r)];
        match env.send(world, op, l, r) {
          case Returned(w, v) => world, stack := w, stack[..n - 2] + [v];
          case Left(w) => world, status := w, Stopped;
        }
    }

    method IvarGroup(arg: nat)
      requires status == Running
      modifies this
      ensures State() == GroupWrite(env, entries, old(State()), arg)
    {
      if stack == [] || arg >= |entries| { status := Crashed; return; }
      var e := entries[arg];
      if e.position == 0 {
        active := env.hasSelf && !env.attached(world);
        pending := 0;
        base := |stack| - 1;
        first := arg;
      }
      if active {
        pending := pending + 1;
      } else {
        StoreInstVar(e.name, stack[|stack| - 1]);
      }
    }

    method IvarGroupEnd(arg: nat)
      requires status == Running
      modifies this
      ensures State() == GroupEnd(env, entries, old(State()), arg)
    {
      var n := |stack|;
      if arg >= |entries| || n == 0 || n < entries[arg].count || entries[arg].count == 0 { status := Crashed; return; }
      var e := entries[arg];
      if active {
        if arg < e.position || arg - e.position + e.count > |entries| { status := Crashed; return; }
        active := false;
        pending := 0;
        var begin := arg - e.position;
        var names, values := [], [];
        for k := 0 to e.count
          invariant names == EntryNames(entries, begin, e.count)[..k] && values == stack[n - e.count..][..k]
        {
          names := names + [entries[begin + k].name];
          values := values + [stack[n - e.count + k]];
        }
        assert names == EntryNames(entries, begin, e.count) && values == stack[n - e.count..];
        SetAttributes(names, values);
      } else {
        StoreInstVar(e.name, stack[n - 1]);
      }
      if status == Running { stack := stack[..n - e.count] + [stack[n - 1]]; }
    }

    /** One new version of the object, with all the values in order. */
    method SetAttributes(names: seq<string>, values: seq<Value>)
      requires |names| == |values|
      modifies this`world, this`log
      ensures world == old(world).(attrs := Written(old(world.attrs), names, values))
      ensures log == old(log) + [Published(world.attrs)]
    {
      var attrs := world.attrs;
      for k := 0 to |names|
        invariant world == old(world) && log == old(log) && attrs == Written(old(world.attrs), names[..k], values[..k])
      {
        WrittenNext(old(world.attrs), names, values, k);
        attrs := attrs[names[k] := values[k]];
      }
      assert names[..|names|] == names && values[..|names|] == values;
      world := world.(attrs := attrs);
      log := log + [Published(attrs)];
    }

    /** Runs straight-line code. */
    method Run(code: seq<Instr>)
      modifies this
      ensures State() == Exec(env, entries, old(State()), code)
    {
      hide Operate, GroupWrite, GroupEnd, Written;
      ghost var start := State();
      assert code[0..] == code;
      for pc := 0 to |code|
        invariant Exec(env, entries, State(), code[pc..]) == Exec(env, entries, start, code)
      {
        ghost var was := State();
        assert code[pc..][0] == code[pc] && code[pc..][1..] == code[pc + 1..];
        if status == Running { Perform(code[pc]); }
        assert State() == Step(env, entries, was, code[pc]);
      }
    }

    method Perform(i: Instr)
      requires status == Running
      modifies this
      ensures State() == Step(env, entries, old(State()), i)
    {
      hide Operate, GroupWrite, GroupEnd;
      match i
      case PushValue(v) => stack := stack + [v];
      case PushSelf => stack := stack + [if env.hasSelf then Self else Nil];
      case PushVar(x) => stack := stack + [if x in world.vars then world.vars[x] else Nil];
      case PushInstVar(x) => stack := stack + [if env.hasSelf && x in world.attrs then world.attrs[x] else Nil];
      case BinInt(op) => BinInt(op);
      case Evaluate(n) =>
        match env.evaluate(world, n) {
          case Returned(w, v) => world, stack := w, stack + [v];
          case Left(w) => world, status := w, Stopped;
        }
      case Dup => if stack == [] { status := Crashed; } else { stack := stack + [stack[|stack| - 1]]; }
      case Pop => if stack == [] { status := Crashed; } else { stack := stack[..|stack| - 1]; }
      case StoreInstVar(x) =>
        if stack == [] {
          status := Crashed;
        } else {
          var v := stack[|stack| - 1];
          stack := stack[..|stack| - 1];
          StoreInstVar(x, v);
        }
      case IvarGroup(arg) => IvarGroup(arg);
      case IvarGroupEnd(arg) => IvarGroupEnd(arg);
    }
  }

  lemma {:induction false} FlushFromKeepsStack(env: Env, entries: seq<Entry>, m: Machine, pending: nat, k: nat)
    ensures FlushFrom(env, entries, m, pending, k).stack == m.stack
    decreases pending - k
  {
    if m.status == Running && k < pending && m.first + k < |entries| && m.base + k < |m.stack| {
      FlushFromKeepsStack(env, entries, Write(env, m, entries[m.first + k].name, m.stack[m.base + k]), pending, k + 1);
    }
  }

  lemma FlushKeepsStack(env: Env, entries: seq<Entry>, m: Machine)
    ensures Flush(env, entries, m).stack == m.stack
  {
    FlushFromKeepsStack(env, entries, m.(active := false, pending := 0), m.pending, 0);
  }
}
