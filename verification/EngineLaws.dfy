/** What compiled methods answer, in plain arithmetic: whole small programs, on the engine, for all integers. */
module EngineLaws {
  import opened Syntax
  import opened Operands
  import opened LoopGuards
  import opened Resolve
  import opened Reference
  import opened Frames
  import opened Bytecode
  import opened Codegen
  import opened Engine
  import opened Lowering
  import opened ClosureTheorem
  import opened EngineTheorem
  import opened SmallMethods

  predicate Ended(s: Machine, v: MValue, after: map<string, MValue>) {
    s.Halted? && s.why == Returned(v) && s.heap.self == after
  }

  /** The compiled method halts with this answer and leaves the instance variables like this. */
  ghost predicate Answers(m: Method, ivars: set<string>, args: seq<MValue>, self: map<string, MValue>, v: MValue, after: map<string, MValue>) {
    exists n: nat :: Ended(Steps(Start(Assembled(ResolveMethod(m, ivars), true), args, self), n), v, after)
  }

  /** The text of a method alone says that it compiles and that its loops do what they mean. */
  predicate Readily(m: Method, ivars: set<string>) {
    MethodWellFormed(m, ivars) && AllGuarded(m.body) && NoneLiteralOperand(m.body) && MethodSize(m) <= MOST_NODES
  }

  /** Whatever such a method means, the engine answers. */
  lemma ReadilyRuns(m: Method, ivars: set<string>, args: seq<Value>, self: map<string, Value>, fuel: nat, v: Value, after: map<string, Value>)
    requires Readily(m, ivars) && |args| == |m.params| && AllPlain(args) && PlainSelf(self)
    requires Run(m, args, self, false, fuel).Stop? && Run(m, args, self, false, fuel).why == Returned(v)
    requires Run(m, args, self, false, fuel).st.self == after && Plain(v) && PlainSelf(after)
    ensures Answers(m, ivars, LowerAll(args), LowerSelf(self), Lower(v), LowerSelf(after))
  {
    SmallMethodsCompile(m, ivars);
    hide ResolveMethod, Compiles, Run, Assembled, Start, MethodWellFormed, HaltsRelated, AllGuarded, NoneLiteralOperand, MethodSize, Steps;
    var n := GuardedMethodCompiles(m, ivars, args, self, fuel);
    var s := Steps(Start(Assembled(ResolveMethod(m, ivars), true), LowerAll(args), LowerSelf(self)), n);
    EndedAlike(Run(m, args, self, false, fuel), s, v, after);
  }

  lemma EndedAlike(r: Result, s: Machine, v: Value, after: map<string, Value>)
    requires HaltsAlike(r, s) && r.why == Returned(v) && r.st.self == after && Plain(v) && PlainSelf(after)
    ensures Ended(s, Lower(v), LowerSelf(after))
  {
    assert forall x | x in after :: Same(after[x], s.heap.self[x]) && LowerSelf<Module>(after)[x] == s.heap.self[x];
    assert LowerSelf<Module>(after) == s.heap.self;
  }

  // ----- Operators -----

  /** ^ a op b */
  function OperatorMethod(op: BinOp, a: int, b: int): Method {
    Method([], [], More(Node.Return(Binary(op, IntLit(a), IntLit(b))), NoNodes))
  }

  /** Code that is written well enough, of at most so many nodes. */
  predicate Fine(n: Node, bound: set<string>, args: set<string>, iv: set<string>, k: nat) {
    WellFormed(n, bound, args, iv) && Guarded(n) && NoLiteralOperand(n) && Size(n) <= k
  }

  predicate AllFine(ns: Nodes, bound: set<string>, args: set<string>, iv: set<string>, k: nat) {
    AllWellFormed(ns, bound, args, iv) && AllGuarded(ns) && NoneLiteralOperand(ns) && Sizes(ns) <= k
  }

  lemma MethodFine(m: Method, ivars: set<string>, k: nat)
    requires DeclaresOk(m.params + m.temps) && |m.params + m.temps| + k <= MOST_NODES
    requires AllFine(m.body, Elems(m.params + m.temps), Elems(m.params), ivars - Elems(m.params + m.temps), k)
    ensures Readily(m, ivars)
  {
  }

  lemma FineMore(h: Node, t: Nodes, bound: set<string>, args: set<string>, iv: set<string>, j: nat, k: nat)
    requires Fine(h, bound, args, iv, j) && AllFine(t, bound, args, iv, k)
    ensures AllFine(More(h, t), bound, args, iv, j + k)
  {
  }

  lemma FineBinary(op: BinOp, l: Node, r: Node, bound: set<string>, args: set<string>, iv: set<string>, j: nat, k: nat)
    requires Fine(l, bound, args, iv, j) && Fine(r, bound, args, iv, k)
    ensures Fine(Binary(op, l, r), bound, args, iv, 1 + j + k)
  {
  }

  lemma FineReturn(v: Node, bound: set<string>, args: set<string>, iv: set<string>, k: nat)
    requires Fine(v, bound, args, iv, k)
    ensures Fine(Node.Return(v), bound, args, iv, 1 + k)
  {
  }

  lemma OperatorReady(op: BinOp, a: int, b: int)
    ensures Readily(OperatorMethod(op, a, b), {})
  {
    var none: seq<string> := [];
    assert none + none == none && Elems(none) == {} && {} - Elems(none) == {};
    FineBinary(op, IntLit(a), IntLit(b), {}, {}, {}, 1, 1);
    FineReturn(Binary(op, IntLit(a), IntLit(b)), {}, {}, {}, 3);
    FineMore(Node.Return(Binary(op, IntLit(a), IntLit(b))), NoNodes, {}, {}, {}, 4, 0);
    MethodFine(OperatorMethod(op, a, b), {}, 4);
  }

  lemma OperatorsAnswer(op: BinOp, a: int, b: int)
    ensures var v := match op
      case Add => FInt(a + b)
      case Sub => FInt(a - b)
      case Le => FBool(a <= b)
      case Lt => FBool(a < b)
      case Ge => FBool(a >= b)
      case Gt => FBool(a > b);
      Answers(OperatorMethod(op, a, b), {}, [], map[], v, map[])
  {
    var m := OperatorMethod(op, a, b);
    OperatorReady(op, a, b);
    hide Answers, Readily;
    assert LowerAll<Module>([]) == [] && LowerSelf<Module>(map[]) == map[];
    var v := OperatorRuns(op, a, b);
    ReadilyRuns(m, {}, [], map[], 0, v, map[]);
  }

  lemma OperatorRuns(op: BinOp, a: int, b: int) returns (v: Value)
    ensures v == match op
      case Add => IntV(a + b)
      case Sub => IntV(a - b)
      case Le => BoolV(a <= b)
      case Lt => BoolV(a < b)
      case Ge => BoolV(a >= b)
      case Gt => BoolV(a > b)
    ensures var r := Run(OperatorMethod(op, a, b), [], map[], false, 0); r.Stop? && r.why == Returned(v) && r.st.self == map[]
  {
    var none: seq<string> := [];
    var env: Env := Activate(map[], none + none, State([], map[]));
    var st := State([] + Nils(0), map[]);
    var e := Binary(op, IntLit(a), IntLit(b));
    assert Eval(IntLit(a), env, st, false, 0) == Val(IntV(a), st);
    assert Eval(IntLit(b), env, st, false, 0) == Val(IntV(b), st);
    v := Compute(op, a, b);
    assert Eval(e, env, st, false, 0) == Val(v, st);
    assert Eval(Node.Return(e), env, st, false, 0) == Stop(Returned(v), st);
  }

  // ----- Conditionals -----

  lemma FineSend(sel: Selector, r: Node, a: Nodes, bound: set<string>, args: set<string>, iv: set<string>, j: nat, k: nat)
    requires Fine(r, bound, args, iv, j) && AllFine(a, bound, args, iv, k) && ArgCount(a) == Arity(sel)
    requires var shape := InlineShapeOf(Send(sel, r, a));
      && (shape in {InlineIf, InlineIfElse, InlineToDo} ==> !r.Block?)
      && (shape == InlineToDo ==> !a.head.Block?)
      && (shape == InlineWhile ==> AnswersBoolean(r.body))
    ensures Fine(Send(sel, r, a), bound, args, iv, 1 + j + k)
  {
  }

  lemma FineBlock(ps: seq<string>, ts: seq<string>, body: Nodes, bound: set<string>, args: set<string>, iv: set<string>, k: nat)
    requires DeclaresOk(ps + ts)
    requires AllFine(body, bound + Elems(ps + ts), (args - Elems(ps + ts)) + Elems(ps), iv - Elems(ps + ts), k)
    ensures Fine(Block(ps, ts, body), bound, args, iv, 1 + |ps + ts| + k)
  {
  }

  /** [x], with temporaries that make it a block of its own, or none and then it is compiled in line. */
  function Just(ts: seq<string>, x: int): Node { Block([], ts, More(IntLit(x), NoNodes)) }

  /** ^ b ifTrue: [x], and the like. */
  function ChoiceMethod(sel: Selector, b: bool, x: int, y: int, ts: seq<string>): Method {
    var rest := if sel in {IfTrueIfFalse, IfFalseIfTrue} then More(Just(ts, y), NoNodes) else NoNodes;
    Method([], [], More(Node.Return(Send(sel, BoolLit(b), More(Just(ts, x), rest))), NoNodes))
  }

  lemma ChoiceReady(sel: Selector, b: bool, x: int, y: int, ts: seq<string>)
    requires sel in {IfTrue, IfFalse, IfTrueIfFalse, IfFalseIfTrue} && DeclaresOk(ts) && |ts| <= 1000
    ensures Readily(ChoiceMethod(sel, b, x, y, ts), {})
  {
    var none: seq<string> := [];
    assert none + none == none && Elems(none) == {} && {} - Elems(none) == {};
    var two := sel in {IfTrueIfFalse, IfFalseIfTrue};
    var rest := if two then More(Just(ts, y), NoNodes) else NoNodes;
    JustFine(ts, x);
    JustFine(ts, y);
    if two { FineMore(Just(ts, y), NoNodes, {}, {}, {}, 1002, 0); }
    FineMore(Just(ts, x), rest, {}, {}, {}, 1002, 1002);
    var send := Send(sel, BoolLit(b), More(Just(ts, x), rest));
    assert ArgCount(NoNodes) == 0 && ArgCount(rest) == if two then 1 else 0;
    assert ArgCount(send.args) == Arity(sel);
    FineSend(sel, BoolLit(b), send.args, {}, {}, {}, 1, 2004);
    FineReturn(send, {}, {}, {}, 2006);
    FineMore(Node.Return(send), NoNodes, {}, {}, {}, 2007, 0);
    MethodFine(ChoiceMethod(sel, b, x, y, ts), {}, 2007);
  }

  lemma JustFine(ts: seq<string>, x: int)
    requires DeclaresOk(ts) && |ts| <= 1000
    ensures Fine(Just(ts, x), {}, {}, {}, 1002)
  {
    assert [] + ts == ts;
    FineMore(IntLit(x), NoNodes, {} + Elems(ts), ({} - Elems(ts)) + Elems([]), {} - Elems(ts), 1, 0);
    FineBlock([], ts, More(IntLit(x), NoNodes), {}, {}, {}, 1);
  }

  lemma JustAnswers(ts: seq<string>, x: int, st: State)
    ensures var r := Call(BlockV(Just(ts, x), map[]), [], st, false, 1); r.Val? && r.v == IntV(x) && r.st.self == st.self
  {
    var env := Activate(map[], [] + ts, st);
    var st' := st.(cells := st.cells + [] + Nils(|ts|));
    assert Eval(IntLit(x), env, st', false, 0) == Val(IntV(x), st');
    assert EvalBody(More(IntLit(x), NoNodes), env, st', false, 0) == Val(IntV(x), st');
  }

  lemma ChoicesAnswer(sel: Selector, b: bool, x: int, y: int, ts: seq<string>)
    requires sel in {IfTrue, IfFalse, IfTrueIfFalse, IfFalseIfTrue} && DeclaresOk(ts) && |ts| <= 1000
    ensures var v := match sel
      case IfTrue => if b then FInt(x) else FNil
      case IfFalse => if b then FNil else FInt(x)
      case IfTrueIfFalse => if b then FInt(x) else FInt(y)
      case _ => if b then FInt(y) else FInt(x);
      Answers(ChoiceMethod(sel, b, x, y, ts), {}, [], map[], v, map[])
  {
    ChoiceReady(sel, b, x, y, ts);
    hide Answers, Readily;
    assert LowerAll<Module>([]) == [] && LowerSelf<Module>(map[]) == map[];
    var v := ChoiceRuns(sel, b, x, y, ts);
    ReadilyRuns(ChoiceMethod(sel, b, x, y, ts), {}, [], map[], 1, v, map[]);
  }

  lemma ChoiceRuns(sel: Selector, b: bool, x: int, y: int, ts: seq<string>) returns (v: Value)
    requires sel in {IfTrue, IfFalse, IfTrueIfFalse, IfFalseIfTrue}
    ensures v == match sel
      case IfTrue => if b then IntV(x) else NilV
      case IfFalse => if b then NilV else IntV(x)
      case IfTrueIfFalse => if b then IntV(x) else IntV(y)
      case _ => if b then IntV(y) else IntV(x)
    ensures var r := Run(ChoiceMethod(sel, b, x, y, ts), [], map[], false, 1); r.Stop? && r.why == Returned(v) && r.st.self == map[]
  {
    var none: seq<string> := [];
    var env: Env := Activate(map[], none + none, State([], map[]));
    assert env == map[];
    var st := State([] + Nils(0), map[]);
    var one, other := Just(ts, x), Just(ts, y);
    var two := sel in {IfTrueIfFalse, IfFalseIfTrue};
    var rest := if two then More(other, NoNodes) else NoNodes;
    var send := Send(sel, BoolLit(b), More(one, rest));
    JustAnswers(ts, x, st);
    JustAnswers(ts, y, st);
    hide Call;
    assert Eval(one, env, st, false, 1) == Val(BlockV(one, env), st) && Eval(other, env, st, false, 1) == Val(BlockV(other, env), st);
    var vs := [BlockV(one, env)] + if two then [BlockV(other, env)] else [];
    assert EvalArgs(NoNodes, env, st, false, 1) == Vals([], st);
    assert EvalArgs(rest, env, st, false, 1) == Vals(vs[1..], st);
    assert EvalArgs(More(one, rest), env, st, false, 1) == Vals(vs, st);
    assert Eval(BoolLit(b), env, st, false, 1) == Val(BoolV(b), st);
    var r := Apply(sel, BoolV(b), vs, st, false, false, 1);
    assert Eval(send, env, st, false, 1) == r;
    assert r.Val? && r.st.self == map[];
    v := r.v;
    assert Eval(Node.Return(send), env, st, false, 1) == Stop(Returned(v), r.st);
  }

  // ----- Loops that add up -----

  function SumTo(i: int, n: int): int
    decreases n - i
  {
    if i > n then 0 else i + SumTo(i + 1, n)
  }

  lemma {:induction false} SumIsClosed(i: int, n: int)
    ensures 2 * SumTo(i, n) == if i > n then 0 else (i + n) * (n - i + 1)
    decreases n - i
  {
    if i <= n {
      SumIsClosed(i + 1, n);
      assert (i + n) * (n - i + 1) == (i + 1 + n) * (n - i) + 2 * i;
    }
  }

  lemma SumHalved(a: int, n: int)
    ensures SumTo(a, n) == if a > n then 0 else (a + n) * (n - a + 1) / 2
  {
    SumIsClosed(a, n);
    hide SumTo;
    if a <= n { Half((a + n) * (n - a + 1), SumTo(a, n)); }
  }

  lemma Half(p: int, s: int)
    requires 2 * s == p
    ensures p / 2 == s
  {
  }

  function Add2(x: string, y: string): Node { Assignment(x, Binary(Add, Ident(x), Ident(y))) }

  function Block1(ps: seq<string>, ts: seq<string>, e: Node): Node { Block(ps, ts, More(e, NoNodes)) }

  /** a, n | s |  s := 0. a to: n do: [:i | s := s + i]. ^ s */
  function ToDoSum(ts: seq<string>): Method {
    Method(["a", "n"], ["s"], More(Assignment("s", IntLit(0)), More(SumLoop(ts), More(Node.Return(Ident("s")), NoNodes))))
  }

  /** The names of the block's own temporaries do not matter. */
  predicate Fresh(ts: seq<string>) {
    DeclaresOk(ts) && |ts| <= 1000 && "i" !in ts && "s" !in ts && "a" !in ts && "n" !in ts
  }

  lemma FineIdent(x: string, bound: set<string>, args: set<string>, iv: set<string>)
    requires x in bound || x in iv
    ensures Fine(Ident(x), bound, args, iv, 1)
  {
  }

  lemma FineAssign(x: string, v: Node, bound: set<string>, args: set<string>, iv: set<string>, k: nat)
    requires (x in bound && x !in args) || (x !in bound && x in iv)
    requires Fine(v, bound, args, iv, k)
    ensures Fine(Assignment(x, v), bound, args, iv, 1 + k)
  {
  }

  lemma Add2Fine(x: string, y: string, bound: set<string>, args: set<string>, iv: set<string>)
    requires x in bound && x !in args && y in bound
    ensures Fine(Add2(x, y), bound, args, iv, 4)
  {
    FineIdent(x, bound, args, iv);
    FineIdent(y, bound, args, iv);
    FineBinary(Add, Ident(x), Ident(y), bound, args, iv, 1, 1);
    FineAssign(x, Binary(Add, Ident(x), Ident(y)), bound, args, iv, 3);
  }

  /** [:i | s := s + i] */
  function Round(ts: seq<string>): Node { Block1(["i"], ts, Add2("s", "i")) }

  lemma RoundFine(ts: seq<string>, bound: set<string>, args: set<string>, iv: set<string>)
    requires Fresh(ts) && "s" in bound && "s" !in args
    ensures Fine(Round(ts), bound, args, iv, 1006)
  {
    var all := ["i"] + ts;
    assert all[0] == "i" && forall k :: 1 <= k < |all| ==> all[k] == ts[k - 1];
    assert DeclaresOk(all);
    assert "s" !in Elems(all) && "i" in Elems(all) && "s" !in Elems(["i"]);
    hide Fine, AllFine;
    Add2Fine("s", "i", bound + Elems(all), (args - Elems(all)) + Elems(["i"]), iv - Elems(all));
    FineMore(Add2("s", "i"), NoNodes, bound + Elems(all), (args - Elems(all)) + Elems(["i"]), iv - Elems(all), 4, 0)
      by { NoneFine(bound + Elems(all), (args - Elems(all)) + Elems(["i"]), iv - Elems(all)); }
    FineBlock(["i"], ts, Round(ts).body, bound, args, iv, 4);
    FineUpTo(Round(ts), bound, args, iv, 1 + |all| + 4, 1006);
  }

  lemma NoneFine(bound: set<string>, args: set<string>, iv: set<string>)
    ensures AllFine(NoNodes, bound, args, iv, 0)
  {
  }

  lemma FineUpTo(n: Node, bound: set<string>, args: set<string>, iv: set<string>, j: nat, k: nat)
    requires Fine(n, bound, args, iv, j) && j <= k
    ensures Fine(n, bound, args, iv, k)
  {
  }

  function SumLoop(ts: seq<string>): Node { Send(ToDo, Ident("a"), More(Ident("n"), More(Round(ts), NoNodes))) }

  lemma SumLoopFine(ts: seq<string>, bound: set<string>, args: set<string>, iv: set<string>)
    requires Fresh(ts) && {"a", "n", "s"} <= bound && "s" !in args
    ensures Fine(SumLoop(ts), bound, args, iv, 1009)
  {
    RoundFine(ts, bound, args, iv);
    FineIdent("n", bound, args, iv);
    FineIdent("a", bound, args, iv);
    NoneFine(bound, args, iv);
    var b := Round(ts);
    assert b.Block?;
    hide Fine, AllFine, Round;
    FineMore(b, NoNodes, bound, args, iv, 1006, 0);
    FineMore(Ident("n"), More(b, NoNodes), bound, args, iv, 1, 1006);
    var two := More(Ident("n"), More(b, NoNodes));
    assert ArgCount(NoNodes) == 0 && ArgCount(two.tail) == 1 && ArgCount(two) == 2;
    FineSend(ToDo, Ident("a"), two, bound, args, iv, 1, 1007);
  }

  lemma ToDoSumReady(ts: seq<string>)
    requires Fresh(ts)
    ensures Readily(ToDoSum(ts), {})
  {
    var ps, own := ["a", "n"], ["a", "n"] + ["s"];
    assert own == ["a", "n", "s"];
    var bound, args: set<string>, iv: set<string> := Elems(own), Elems(ps), {} - Elems(own);
    assert "s" == own[2] && "n" == own[1] && "a" == own[0];
    assert {"a", "n", "s"} <= bound && "s" !in args;
    assert DeclaresOk(own);
    SumLoopFine(ts, bound, args, iv);
    FineAssign("s", IntLit(0), bound, args, iv, 1);
    FineIdent("s", bound, args, iv);
    FineReturn(Ident("s"), bound, args, iv, 1);
    hide Fine;
    ThreeFine(Assignment("s", IntLit(0)), SumLoop(ts), Node.Return(Ident("s")), bound, args, iv, 2, 1009, 2);
    hide AllFine, Elems, DeclaresOk, Readily;
    MethodFine(ToDoSum(ts), {}, 1013);
  }

  lemma ThreeFine(a: Node, b: Node, c: Node, bound: set<string>, args: set<string>, iv: set<string>, i: nat, j: nat, k: nat)
    requires Fine(a, bound, args, iv, i) && Fine(b, bound, args, iv, j) && Fine(c, bound, args, iv, k)
    ensures AllFine(More(a, More(b, More(c, NoNodes))), bound, args, iv, i + j + k)
  {
    NoneFine(bound, args, iv);
    hide Fine, AllFine;
    FineMore(c, NoNodes, bound, args, iv, k, 0);
    FineMore(b, More(c, NoNodes), bound, args, iv, j, k);
    FineMore(a, More(b, More(c, NoNodes)), bound, args, iv, i, j + k);
  }

  // ----- What they run like -----

  /** The cell of `x` holds this Integer. */
  predicate Holds(env: Env, st: State, x: string, n: int) { x in env && env[x] < |st.cells| && st.cells[env[x]] == IntV(n) }

  /** x := x + y */
  lemma AddRuns(x: string, y: string, env: Env, st: State, a: int, b: int, fuel: nat)
    requires Holds(env, st, x, a) && Holds(env, st, y, b)
    ensures Eval(Add2(x, y), env, st, false, fuel) == Val(IntV(a + b), st.(cells := st.cells[env[x] := IntV(a + b)]))
  {
    assert Eval(Ident(x), env, st, false, fuel) == Val(IntV(a), st);
    assert Eval(Ident(y), env, st, false, fuel) == Val(IntV(b), st);
    assert Eval(Binary(Add, Ident(x), Ident(y)), env, st, false, fuel) == Val(IntV(a + b), st);
  }

  lemma RoundAdds(env: Env, st: State, ts: seq<string>, total: int, i: int, fuel: nat) returns (r: Result)
    requires Holds(env, st, "s", total) && "s" !in ts && "i" !in ts && fuel > 0
    ensures r == Call(BlockV(Round(ts), env), [IntV(i)], st, false, fuel)
    ensures r.Val? && r.st.self == st.self && Holds(env, r.st, "s", total + i)
  {
    r := Call(BlockV(Round(ts), env), [IntV(i)], st, false, fuel);
    var names := ["i"] + ts;
    var env' := Activate(env, names, st);
    var st' := st.(cells := st.cells + [IntV(i)] + Nils(|ts|));
    RoundOpens(env, st, ts, total, i);
    AddRuns("s", "i", env', st', total, i, fuel - 1);
    hide Eval, Activate;
    assert EvalBody(More(Add2("s", "i"), NoNodes), env', st', false, fuel - 1) == Eval(Add2("s", "i"), env', st', false, fuel - 1);
  }

  lemma RoundOpens(env: Env, st: State, ts: seq<string>, total: int, i: int)
    requires Holds(env, st, "s", total) && "s" !in ts && "i" !in ts
    ensures var env', st' := Activate(env, ["i"] + ts, st), st.(cells := st.cells + [IntV(i)] + Nils(|ts|));
      Holds(env', st', "i", i) && Holds(env', st', "s", total) && env'["s"] == env["s"] && env'["i"] != env["s"]
  {
    var names := ["i"] + ts;
    assert names[0] == "i" && IndexOf(names, "i") == 0;
    assert "i" in Elems(names) && "s" !in Elems(names);
  }

  lemma {:induction false} CountAdds(env: Env, st: State, ts: seq<string>, total: int, a: int, i: int, n: int, fuel: nat) returns (r: Result)
    requires Holds(env, st, "s", total) && "s" !in ts && "i" !in ts && fuel > if i > n then 0 else n - i + 1
    ensures r == Count(a, i, n, BlockV(Round(ts), env), st, false, fuel)
    ensures r.Val? && r.v == IntV(a) && r.st.self == st.self && Holds(env, r.st, "s", total + SumTo(i, n))
    decreases fuel
  {
    r := Count(a, i, n, BlockV(Round(ts), env), st, false, fuel);
    if i <= n {
      var b := RoundAdds(env, st, ts, total, i, fuel - 1);
      hide Call, Round;
      var rest := CountAdds(env, b.st, ts, total + i, a, i + 1, n, fuel - 1);
      assert r == rest;
    }
  }

  lemma SumLoopRuns(env: Env, st: State, a: int, n: int, ts: seq<string>, fuel: nat) returns (r: Result)
    requires Holds(env, st, "a", a) && Holds(env, st, "n", n) && Holds(env, st, "s", 0) && Fresh(ts)
    requires fuel > if a > n then 0 else n - a + 1
    ensures r == Eval(SumLoop(ts), env, st, false, fuel)
    ensures r.Val? && r.v == IntV(a) && r.st.self == st.self && Holds(env, r.st, "s", SumTo(a, n))
  {
    var f := BlockV(Round(ts), env);
    assert Eval(Ident("a"), env, st, false, fuel) == Val(IntV(a), st);
    assert Eval(Ident("n"), env, st, false, fuel) == Val(IntV(n), st);
    assert Eval(Round(ts), env, st, false, fuel) == Val(f, st);
    assert SumLoop(ts) == Send(ToDo, Ident("a"), More(Ident("n"), More(Round(ts), NoNodes)));
    hide *;
    assert "s" !in ts && "i" !in ts by { FreshApart(ts); }
    r := CountAdds(env, st, ts, 0, a, a, n, fuel);
    SendTwo(ToDo, Ident("a"), Ident("n"), Round(ts), IntV(a), IntV(n), f, env, st, fuel);
    ToDoCounts(a, n, f, st, fuel);
  }

  lemma FreshApart(ts: seq<string>)
    requires Fresh(ts)
    ensures "s" !in ts && "i" !in ts
  {
  }

  lemma ToDoCounts(a: int, n: int, f: Value, st: State, fuel: nat)
    ensures Apply(ToDo, IntV(a), [IntV(n), f], st, false, false, fuel) == Count(a, a, n, f, st, false, fuel)
  {
    hide Count;
  }

  lemma ToDoRuns(a: int, n: int, ts: seq<string>) returns (fuel: nat, st: State)
    requires Fresh(ts)
    ensures Run(ToDoSum(ts), [IntV(a), IntV(n)], map[], false, fuel) == Stop(Returned(IntV(SumTo(a, n))), st) && st.self == map[]
  {
    fuel := if a > n then 2 else n - a + 2;
    var names := ["a", "n"] + ["s"];
    var env: Env := Activate(map[], names, State([], map[]));
    Places(names);
    var st0 := State([IntV(a), IntV(n)] + Nils(1), map[]);
    var st1 := st0.(cells := st0.cells[2 := IntV(0)]);
    var set0, loop, ret := Assignment("s", IntLit(0)), SumLoop(ts), Node.Return(Ident("s"));
    assert Eval(IntLit(0), env, st0, false, fuel) == Val(IntV(0), st0);
    assert Eval(set0, env, st0, false, fuel) == Val(IntV(0), st1);
    var r := SumLoopRuns(env, st1, a, n, ts, fuel);
    st := r.st;
    ReturnRuns("s", env, st, SumTo(a, n), fuel);
    hide SumLoop, SumTo, Fresh, Holds, Eval;
    ThreeRun(set0, loop, ret, env, st0, st1, st, fuel);
  }

  /** ^ x */
  lemma ReturnRuns(x: string, env: Env, st: State, n: int, fuel: nat)
    requires Holds(env, st, x, n)
    ensures Eval(Node.Return(Ident(x)), env, st, false, fuel) == Stop(Returned(IntV(n)), st)
  {
    assert Eval(Ident(x), env, st, false, fuel) == Val(IntV(n), st);
  }

  lemma Places(names: seq<string>)
    requires names == ["a", "n", "s"]
    ensures var env := Activate(map[], names, State([], map[])); env == map["a" := 0, "n" := 1, "s" := 2]
  {
  }

  lemma ThreeRun(a: Node, b: Node, c: Node, env: Env, st0: State, st1: State, st2: State, fuel: nat)
    requires Eval(a, env, st0, false, fuel).Val? && Eval(a, env, st0, false, fuel).st == st1
    requires Eval(b, env, st1, false, fuel).Val? && Eval(b, env, st1, false, fuel).st == st2
    ensures EvalBody(More(a, More(b, More(c, NoNodes))), env, st0, false, fuel) == Eval(c, env, st2, false, fuel)
  {
    hide Eval;
    assert EvalBody(More(c, NoNodes), env, st2, false, fuel) == Eval(c, env, st2, false, fuel);
    assert EvalBody(More(b, More(c, NoNodes)), env, st1, false, fuel) == EvalBody(More(c, NoNodes), env, st2, false, fuel);
  }

  /** The compiled loop adds up, whether its block is compiled in line or called. */
  lemma ToDoAnswersTheSum(a: int, n: int, ts: seq<string>)
    requires Fresh(ts)
    ensures Answers(ToDoSum(ts), {}, [FInt(a), FInt(n)], map[], FInt(if a > n then 0 else (a + n) * (n - a + 1) / 2), map[])
  {
    ToDoSumReady(ts);
    SumHalved(a, n);
    hide Answers, Readily, ToDoSum, SumTo, Fresh;
    var fuel, st := ToDoRuns(a, n, ts);
    assert LowerAll<Module>([IntV(a), IntV(n)]) == [FInt(a), FInt(n)] && LowerSelf<Module>(map[]) == map[];
    ReadilyRuns(ToDoSum(ts), {}, [IntV(a), IntV(n)], map[], fuel, IntV(SumTo(a, n)), map[]);
  }

  // ----- while loops -----

  /** i := i + 1 */
  const STEP := Assignment("i", Binary(Add, Ident("i"), IntLit(1)))

  /** [i <= n] or [i > n] */
  function Guard(until: bool): Node { Block1([], [], Binary(if until then Gt else Le, Ident("i"), Ident("n"))) }

  /** [s := s + i. i := i + 1] */
  function Turn(ts: seq<string>): Node { Block([], ts, More(Add2("s", "i"), More(STEP, NoNodes))) }

  function WhileLoop(until: bool, ts: seq<string>): Node {
    Send(if until then WhileFalse else WhileTrue, Guard(until), More(Turn(ts), NoNodes))
  }

  /** a, n | i s |  i := a. s := 0. [i <= n] whileTrue: [s := s + i. i := i + 1]. ^ s */
  function WhileSum(until: bool, ts: seq<string>): Method {
    Method(["a", "n"], ["i", "s"],
           More(Assignment("i", Ident("a")), More(Assignment("s", IntLit(0)), More(WhileLoop(until, ts), More(Node.Return(Ident("s")), NoNodes)))))
  }

  lemma TurnFine(ts: seq<string>, bound: set<string>, args: set<string>, iv: set<string>)
    requires Fresh(ts) && {"i", "s"} <= bound && "s" !in args && "i" !in args
    ensures Fine(Turn(ts), bound, args, iv, 1009)
  {
    assert [] + ts == ts;
    var b, a, v := bound + Elems(ts), (args - Elems(ts)) + Elems([]), iv - Elems(ts);
    assert "s" !in a && "i" !in a;
    hide Fine, AllFine, Fresh;
    assert DeclaresOk([] + ts) && |ts| <= 1000 by { FreshDeclares(ts); }
    Add2Fine("s", "i", b, a, v);
    FineIdent("i", b, a, v);
    assert Fine(IntLit(1), b, a, v, 1) by { LiteralFine(1, b, a, v); }
    FineBinary(Add, Ident("i"), IntLit(1), b, a, v, 1, 1);
    FineAssign("i", Binary(Add, Ident("i"), IntLit(1)), b, a, v, 3);
    NoneFine(b, a, v);
    FineMore(STEP, NoNodes, b, a, v, 4, 0);
    FineMore(Add2("s", "i"), More(STEP, NoNodes), b, a, v, 4, 4);
    FineBlock([], ts, Turn(ts).body, bound, args, iv, 8);
    FineUpTo(Turn(ts), bound, args, iv, 1 + |[] + ts| + 8, 1009);
  }

  lemma FreshDeclares(ts: seq<string>)
    requires Fresh(ts)
    ensures DeclaresOk([] + ts) && |ts| <= 1000
  {
    assert [] + ts == ts;
  }

  lemma LiteralFine(n: int, bound: set<string>, args: set<string>, iv: set<string>)
    ensures Fine(IntLit(n), bound, args, iv, 1)
  {
  }

  lemma GuardFine(until: bool, bound: set<string>, args: set<string>, iv: set<string>)
    requires {"i", "n"} <= bound
    ensures Fine(Guard(until), bound, args, iv, 4) && AnswersBoolean(Guard(until).body)
  {
    var none: seq<string> := [];
    assert none + none == none && Elems(none) == {};
    var b, a, v := bound + Elems(none), (args - Elems(none)) + Elems(none), iv - Elems(none);
    var op := if until then Gt else Le;
    FineIdent("i", b, a, v);
    FineIdent("n", b, a, v);
    FineBinary(op, Ident("i"), Ident("n"), b, a, v, 1, 1);
    NoneFine(b, a, v);
    hide Fine, AllFine;
    FineMore(Binary(op, Ident("i"), Ident("n")), NoNodes, b, a, v, 3, 0);
    FineBlock([], [], Guard(until).body, bound, args, iv, 3);
  }

  lemma WhileLoopFine(until: bool, ts: seq<string>, bound: set<string>, args: set<string>, iv: set<string>)
    requires Fresh(ts) && {"i", "n", "s"} <= bound && "s" !in args && "i" !in args
    ensures Fine(WhileLoop(until, ts), bound, args, iv, 1014)
  {
    TurnFine(ts, bound, args, iv);
    GuardFine(until, bound, args, iv);
    NoneFine(bound, args, iv);
    assert Turn(ts).Block?;
    hide Fine, AllFine, Turn;
    FineMore(Turn(ts), NoNodes, bound, args, iv, 1009, 0);
    var one := More(Turn(ts), NoNodes);
    assert ArgCount(NoNodes) == 0 && ArgCount(one) == 1;
    hide Guard, AnswersBoolean;
    FineSend(if until then WhileFalse else WhileTrue, Guard(until), one, bound, args, iv, 4, 1009);
  }

  lemma WhileSumReady(until: bool, ts: seq<string>)
    requires Fresh(ts)
    ensures Readily(WhileSum(until, ts), {})
  {
    var ps, own := ["a", "n"], ["a", "n"] + ["i", "s"];
    assert own == ["a", "n", "i", "s"];
    var bound, args: set<string>, iv: set<string> := Elems(own), Elems(ps), {} - Elems(own);
    assert "i" == own[2] && "n" == own[1] && "a" == own[0] && "s" == own[3];
    assert {"a", "i", "n", "s"} <= bound && "s" !in args && "i" !in args;
    assert DeclaresOk(own);
    hide Elems, DeclaresOk;
    WhileLoopFine(until, ts, bound, args, iv);
    FineIdent("a", bound, args, iv);
    FineAssign("i", Ident("a"), bound, args, iv, 1);
    LiteralFine(0, bound, args, iv);
    FineAssign("s", IntLit(0), bound, args, iv, 1);
    FineIdent("s", bound, args, iv);
    FineReturn(Ident("s"), bound, args, iv, 1);
    hide Fine, AllFine, Readily, WhileLoop;
    ThreeFine(Assignment("s", IntLit(0)), WhileLoop(until, ts), Node.Return(Ident("s")), bound, args, iv, 2, 1014, 2);
    FineMore(Assignment("i", Ident("a")), More(Assignment("s", IntLit(0)), More(WhileLoop(until, ts), More(Node.Return(Ident("s")), NoNodes))),
             bound, args, iv, 2, 1018);
    MethodFine(WhileSum(until, ts), {}, 1020);
  }

  /** `i`, `n` and `s` hold these, each in a cell of its own. */
  predicate Counting(env: Env, st: State, i: int, n: int, s: int) {
    Holds(env, st, "i", i) && Holds(env, st, "n", n) && Holds(env, st, "s", s)
    && env["i"] != env["n"] && env["i"] != env["s"] && env["n"] != env["s"]
  }

  lemma GuardRuns(until: bool, env: Env, st: State, i: int, n: int, s: int, fuel: nat)
    requires Counting(env, st, i, n, s) && fuel > 0
    ensures Call(BlockV(Guard(until), env), [], st, false, fuel) == Val(BoolV((i <= n) != until), st)
  {
    var none: seq<string> := [];
    var st' := st.(cells := st.cells + [] + Nils(0));
    assert st' == st && Activate(env, none + none, st) == env;
    var e := Binary(if until then Gt else Le, Ident("i"), Ident("n"));
    assert Eval(Ident("i"), env, st, false, fuel - 1) == Val(IntV(i), st);
    assert Eval(Ident("n"), env, st, false, fuel - 1) == Val(IntV(n), st);
    assert Eval(e, env, st, false, fuel - 1) == Val(BoolV((i <= n) != until), st);
    hide Eval;
    assert EvalBody(More(e, NoNodes), env, st, false, fuel - 1) == Eval(e, env, st, false, fuel - 1);
  }

  lemma StepRuns(env: Env, st: State, i: int, fuel: nat)
    requires Holds(env, st, "i", i)
    ensures Eval(STEP, env, st, false, fuel) == Val(IntV(i + 1), st.(cells := st.cells[env["i"] := IntV(i + 1)]))
  {
    assert Eval(Ident("i"), env, st, false, fuel) == Val(IntV(i), st);
    assert Eval(IntLit(1), env, st, false, fuel) == Val(IntV(1), st);
    assert Eval(Binary(Add, Ident("i"), IntLit(1)), env, st, false, fuel) == Val(IntV(i + 1), st);
  }

  lemma TurnRuns(ts: seq<string>, env: Env, st: State, i: int, n: int, s: int, fuel: nat) returns (r: Result)
    requires Counting(env, st, i, n, s) && Fresh(ts) && fuel > 0
    ensures r == Call(BlockV(Turn(ts), env), [], st, false, fuel)
    ensures r.Val? && r.st.self == st.self && Counting(env, r.st, i + 1, n, s + i)
  {
    hide *;
    var env' := Activate(env, [] + ts, st);
    var st0 := st.(cells := st.cells + [] + Nils(|ts|));
    TurnIs(ts, env, st, fuel);
    TurnOpens(ts, env, st, i, n, s);
    AddRuns("s", "i", env', st0, s, i, fuel - 1);
    var st1 := st0.(cells := st0.cells[env'["s"] := IntV(s + i)]);
    StepRuns(env', st1, i, fuel - 1);
    r := Val(IntV(i + 1), st1.(cells := st1.cells[env'["i"] := IntV(i + 1)]));
    TwoRun(Add2("s", "i"), STEP, env', st0, st1, fuel - 1);
  }

  lemma TurnIs(ts: seq<string>, env: Env, st: State, fuel: nat)
    requires fuel > 0
    ensures Call(BlockV(Turn(ts), env), [], st, false, fuel)
         == EvalBody(More(Add2("s", "i"), More(STEP, NoNodes)), Activate(env, [] + ts, st), st.(cells := st.cells + [] + Nils(|ts|)), false, fuel - 1)
  {
    hide EvalBody, Activate;
  }

  lemma TwoRun(a: Node, b: Node, env: Env, st0: State, st1: State, fuel: nat)
    requires Eval(a, env, st0, false, fuel).Val? && Eval(a, env, st0, false, fuel).st == st1
    ensures EvalBody(More(a, More(b, NoNodes)), env, st0, false, fuel) == Eval(b, env, st1, false, fuel)
  {
    hide Eval;
    assert EvalBody(More(b, NoNodes), env, st1, false, fuel) == Eval(b, env, st1, false, fuel);
  }

  lemma TurnOpens(ts: seq<string>, env: Env, st: State, i: int, n: int, s: int)
    requires Counting(env, st, i, n, s) && Fresh(ts)
    ensures var env', st0 := Activate(env, [] + ts, st), st.(cells := st.cells + [] + Nils(|ts|));
      var st1 := st0.(cells := st0.cells[env["s"] := IntV(s + i)]);
      && env["s"] < |st0.cells| && env["i"] < |st0.cells| && env'["s"] == env["s"] && env'["i"] == env["i"]
      && Holds(env', st0, "s", s) && Holds(env', st0, "i", i)
      && Holds(env', st1, "i", i) && Counting(env, st1.(cells := st1.cells[env["i"] := IntV(i + 1)]), i + 1, n, s + i)
  {
    assert [] + ts == ts;
    assert "s" !in Elems(ts) && "i" !in Elems(ts);
  }

  lemma {:induction false} WhileAdds(until: bool, ts: seq<string>, env: Env, st: State, i: int, n: int, s: int, fuel: nat) returns (r: Result)
    requires Counting(env, st, i, n, s) && Fresh(ts) && fuel > 1 + if i > n then 0 else n - i + 1
    ensures r == While(if until then WhileFalse else WhileTrue, BlockV(Guard(until), env), BlockV(Turn(ts), env), st, false, false, fuel)
    ensures r.Val? && r.v == NilV && r.st.self == st.self && Holds(env, r.st, "s", s + SumTo(i, n))
    decreases fuel
  {
    r := While(if until then WhileFalse else WhileTrue, BlockV(Guard(until), env), BlockV(Turn(ts), env), st, false, false, fuel);
    GuardRuns(until, env, st, i, n, s, fuel - 1);
    if i <= n {
      var b := TurnRuns(ts, env, st, i, n, s, fuel - 1);
      hide Call, Guard, Turn, Counting, Fresh, Holds;
      var rest := WhileAdds(until, ts, env, b.st, i + 1, n, s + i, fuel - 1);
      assert r == rest;
    }
  }

  lemma WhileLoopRuns(until: bool, ts: seq<string>, env: Env, st: State, i: int, n: int, fuel: nat) returns (r: Result)
    requires Counting(env, st, i, n, 0) && Fresh(ts) && fuel > 1 + if i > n then 0 else n - i + 1
    ensures r == Eval(WhileLoop(until, ts), env, st, false, fuel)
    ensures r.Val? && r.st.self == st.self && Holds(env, r.st, "s", SumTo(i, n))
  {
    var f, g, loop := BlockV(Guard(until), env), BlockV(Turn(ts), env), WhileLoop(until, ts);
    assert Eval(Guard(until), env, st, false, fuel) == Val(f, st);
    assert Eval(Turn(ts), env, st, false, fuel) == Val(g, st);
    r := WhileAdds(until, ts, env, st, i, n, 0, fuel);
    hide While, Turn, Guard, SumTo, Counting, Fresh;
    assert EvalArgs(NoNodes, env, st, false, fuel) == Vals([], st);
    assert EvalArgs(loop.args, env, st, false, fuel) == Vals([g], st);
    assert forall literal: bool :: Apply(loop.sel, f, [g], st, false, literal, fuel) == r;
    hide Apply, InlineShapeOf;
  }

  lemma FourPlaces(names: seq<string>)
    requires names == ["a", "n", "i", "s"]
    ensures Activate(map[], names, State([], map[])) == map["a" := 0, "n" := 1, "i" := 2, "s" := 3]
  {
    assert names[0] == "a" && names[1] == "n" && names[2] == "i" && names[3] == "s" && Distinct(names);
    IndexOfAt(names, 0);
    IndexOfAt(names, 1);
    IndexOfAt(names, 2);
    IndexOfAt(names, 3);
    hide IndexOf, Distinct;
    assert Elems(names) == {"a", "n", "i", "s"};
  }

  lemma IndexOfAt(names: seq<string>, k: nat)
    requires k < |names| && Distinct(names)
    ensures IndexOf(names, names[k]) == k
  {
    var i := IndexOf(names, names[k]);
    assert names[i] == names[k];
    hide IndexOf;
  }

  /** i := a. s := 0 */
  lemma PreludeRuns(env: Env, a: int, n: int, fuel: nat) returns (st0: State, st1: State, st2: State)
    requires env == map["a" := 0, "n" := 1, "i" := 2, "s" := 3]
    ensures st0 == State([IntV(a), IntV(n)] + Nils(2), map[]) && st2.self == map[] && Counting(env, st2, a, n, 0)
    ensures Eval(Assignment("i", Ident("a")), env, st0, false, fuel) == Val(IntV(a), st1)
    ensures Eval(Assignment("s", IntLit(0)), env, st1, false, fuel) == Val(IntV(0), st2)
  {
    st0 := State([IntV(a), IntV(n)] + Nils(2), map[]);
    st1 := st0.(cells := st0.cells[2 := IntV(a)]);
    st2 := st1.(cells := st1.cells[3 := IntV(0)]);
    assert Eval(Ident("a"), env, st0, false, fuel) == Val(IntV(a), st0);
    assert Eval(IntLit(0), env, st1, false, fuel) == Val(IntV(0), st1);
  }

  lemma FirstRuns(h: Node, t: Nodes, env: Env, st0: State, st1: State, fuel: nat)
    requires Eval(h, env, st0, false, fuel).Val? && Eval(h, env, st0, false, fuel).st == st1 && t.More?
    ensures EvalBody(More(h, t), env, st0, false, fuel) == EvalBody(t, env, st1, false, fuel)
  {
    hide Eval;
  }

  lemma RunStops(m: Method, args: seq<Value>, self: map<string, Value>, fuel: nat, r: Result)
    requires EvalBody(m.body, Activate(map[], m.params + m.temps, State([], self)), State(args + Nils(|m.temps|), self), false, fuel) == r
    requires r.Stop?
    ensures Run(m, args, self, false, fuel) == r
  {
    hide EvalBody;
  }

  lemma WhileRuns(until: bool, a: int, n: int, ts: seq<string>) returns (fuel: nat, st: State)
    requires Fresh(ts)
    ensures Run(WhileSum(until, ts), [IntV(a), IntV(n)], map[], false, fuel) == Stop(Returned(IntV(SumTo(a, n))), st) && st.self == map[]
  {
    hide *;
    fuel := if a > n then 3 else n - a + 3;
    var env: Env := map["a" := 0, "n" := 1, "i" := 2, "s" := 3];
    var st0, st1, st2 := PreludeRuns(env, a, n, fuel);
    var seti, set0, loop, ret := Assignment("i", Ident("a")), Assignment("s", IntLit(0)), WhileLoop(until, ts), Node.Return(Ident("s"));
    var r := WhileLoopRuns(until, ts, env, st2, a, n, fuel);
    st := r.st;
    ReturnRuns("s", env, st, SumTo(a, n), fuel);
    ThreeRun(set0, loop, ret, env, st1, st2, st, fuel);
    FirstRuns(seti, More(set0, More(loop, More(ret, NoNodes))), env, st0, st1, fuel);
    WhileSumRuns(until, ts, a, n, fuel, Stop(Returned(IntV(SumTo(a, n))), st));
  }

  lemma WhileSumRuns(until: bool, ts: seq<string>, a: int, n: int, fuel: nat, r: Result)
    requires var body := More(Assignment("i", Ident("a")), More(Assignment("s", IntLit(0)), More(WhileLoop(until, ts), More(Node.Return(Ident("s")), NoNodes))));
      EvalBody(body, map["a" := 0, "n" := 1, "i" := 2, "s" := 3], State([IntV(a), IntV(n)] + Nils(2), map[]), false, fuel) == r
    requires r.Stop?
    ensures Run(WhileSum(until, ts), [IntV(a), IntV(n)], map[], false, fuel) == r
  {
    var names := ["a", "n"] + ["i", "s"];
    FourPlaces(names);
    hide EvalBody, Activate, Run, WhileLoop;
    RunStops(WhileSum(until, ts), [IntV(a), IntV(n)], map[], fuel, r);
  }

  /** Both while loops, compiled in line or not, add up as well. */
  lemma WhileAnswersTheSum(until: bool, a: int, n: int, ts: seq<string>)
    requires Fresh(ts)
    ensures Answers(WhileSum(until, ts), {}, [FInt(a), FInt(n)], map[], FInt(if a > n then 0 else (a + n) * (n - a + 1) / 2), map[])
  {
    WhileSumReady(until, ts);
    SumHalved(a, n);
    hide Answers, Readily, WhileSum, SumTo, Fresh;
    var fuel, st := WhileRuns(until, a, n, ts);
    assert LowerAll<Module>([IntV(a), IntV(n)]) == [FInt(a), FInt(n)] && LowerSelf<Module>(map[]) == map[];
    ReadilyRuns(WhileSum(until, ts), {}, [IntV(a), IntV(n)], map[], fuel, IntV(SumTo(a, n)), map[]);
  }

  // ----- Blocks as values -----

  /** A method with arguments a and n and a temporary s. */
  function TwoArgs(body: Nodes): Method { Method(["a", "n"], ["s"], body) }

  const OWN := {"a", "n", "s"}

  /** The body returns this, or falls off its end. */
  predicate Finishes(r: Result, v: Value, st: State) { r == Stop(Returned(v), st) || (r.Val? && r.st == st && v == SelfV) }

  lemma RunFinishes(m: Method, args: seq<Value>, self: map<string, Value>, fuel: nat, v: Value, st: State)
    requires Finishes(EvalBody(m.body, Activate(map[], m.params + m.temps, State([], self)), State(args + Nils(|m.temps|), self), false, fuel), v, st)
    ensures Run(m, args, self, false, fuel) == Stop(Returned(v), st)
  {
    hide EvalBody;
  }

  lemma TwoArgsAnswer(body: Nodes, k: nat, a: int, n: int, fuel: nat, v: Value, st: State)
    requires AllFine(body, OWN, {"a", "n"}, {}, k) && k <= 1000 && Plain(v) && st.self == map[]
    requires Finishes(EvalBody(body, map["a" := 0, "n" := 1, "s" := 2], State([IntV(a), IntV(n), NilV], map[]), false, fuel), v, st)
    ensures Answers(TwoArgs(body), {}, [FInt(a), FInt(n)], map[], Lower(v), map[])
  {
    TwoArgsReady(body, k);
    var names := ["a", "n"] + ["s"];
    assert names == ["a", "n", "s"];
    Places(names);
    assert [IntV(a), IntV(n)] + Nils(1) == [IntV(a), IntV(n), NilV];
    RunFinishes(TwoArgs(body), [IntV(a), IntV(n)], map[], fuel, v, st);
    hide Answers, Readily, Run, EvalBody, AllFine;
    assert LowerAll<Module>([IntV(a), IntV(n)]) == [FInt(a), FInt(n)] && LowerSelf<Module>(map[]) == map[];
    ReadilyRuns(TwoArgs(body), {}, [IntV(a), IntV(n)], map[], fuel, v, map[]);
  }

  lemma TwoArgsReady(body: Nodes, k: nat)
    requires AllFine(body, OWN, {"a", "n"}, {}, k) && k <= 1000
    ensures Readily(TwoArgs(body), {})
  {
    var ps, own := ["a", "n"], ["a", "n"] + ["s"];
    assert own == ["a", "n", "s"];
    assert "s" == own[2] && "n" == own[1] && "a" == own[0] && "a" == ps[0] && "n" == ps[1];
    assert Elems(own) == OWN && Elems(ps) == {"a", "n"} && {} - Elems(own) == {};
    assert DeclaresOk(own);
    hide AllFine, Elems, Readily;
    MethodFine(TwoArgs(body), {}, k);
  }

  lemma PairFine(h: Node, t: Node, bound: set<string>, args: set<string>, iv: set<string>, j: nat, k: nat)
    requires Fine(h, bound, args, iv, j) && Fine(t, bound, args, iv, k)
    ensures AllFine(More(h, More(t, NoNodes)), bound, args, iv, j + k) && AllFine(More(h, NoNodes), bound, args, iv, j)
  {
    NoneFine(bound, args, iv);
    hide Fine, AllFine;
    FineMore(t, NoNodes, bound, args, iv, k, 0);
    FineMore(h, More(t, NoNodes), bound, args, iv, j, k);
    FineMore(h, NoNodes, bound, args, iv, j, 0);
  }

  /** s := a. [:i | s := s + i] value: n. ^ s: the block writes the method's own variable. */
  function BlockSum(): Method {
    TwoArgs(More(Assignment("s", Ident("a")),
            More(Send(Value(1), Round([]), More(Ident("n"), NoNodes)),
            More(Node.Return(Ident("s")), NoNodes))))
  }

  lemma BlockSumFine()
    ensures AllFine(BlockSum().body, OWN, {"a", "n"}, {}, 1000)
  {
    var bound, args, iv: set<string> := OWN, {"a", "n"}, {};
    var small := Round([]);
    assert Fresh([]);
    SmallRoundFine(bound, args, iv);
    FineIdent("a", bound, args, iv);
    FineIdent("n", bound, args, iv);
    FineIdent("s", bound, args, iv);
    FineAssign("s", Ident("a"), bound, args, iv, 1);
    FineReturn(Ident("s"), bound, args, iv, 1);
    NoneFine(bound, args, iv);
    hide Fine, AllFine, Round;
    FineMore(Ident("n"), NoNodes, bound, args, iv, 1, 0);
    var one := More(Ident("n"), NoNodes);
    assert ArgCount(NoNodes) == 0 && ArgCount(one) == 1;
    FineSend(Value(1), small, one, bound, args, iv, 900, 1);
    ThreeFine(Assignment("s", Ident("a")), Send(Value(1), small, one), Node.Return(Ident("s")), bound, args, iv, 2, 902, 2);
    AllFineUpTo(BlockSum().body, bound, args, iv, 906, 1000);
  }

  lemma AllFineUpTo(ns: Nodes, bound: set<string>, args: set<string>, iv: set<string>, j: nat, k: nat)
    requires AllFine(ns, bound, args, iv, j) && j <= k
    ensures AllFine(ns, bound, args, iv, k)
  {
  }

  lemma SmallRoundFine(bound: set<string>, args: set<string>, iv: set<string>)
    requires "s" in bound && "s" !in args
    ensures Fine(Round([]), bound, args, iv, 900)
  {
    assert Fresh([]);
    RoundFine([], bound, args, iv);
    assert Size(Add2("s", "i")) == 4 && Sizes(Round([]).body) == 4 && Size(Round([])) <= 10;
  }

  lemma BlockWritesItsMethod(a: int, n: int)
    ensures Answers(BlockSum(), {}, [FInt(a), FInt(n)], map[], FInt(a + n), map[])
  {
    BlockSumFine();
    var st := BlockSumRuns(a, n);
    hide AllFine, EvalBody, Answers;
    TwoArgsAnswer(BlockSum().body, 1000, a, n, 1, IntV(a + n), st);
  }

  lemma SendOne(sel: Selector, r: Node, x: Node, f: Value, v: Value, env: Env, st: State, fuel: nat)
    requires Eval(r, env, st, false, fuel) == Val(f, st) && Eval(x, env, st, false, fuel) == Val(v, st)
    requires InlineShapeOf(Send(sel, r, More(x, NoNodes))) != InlineWhile
    ensures Eval(Send(sel, r, More(x, NoNodes)), env, st, false, fuel) == Apply(sel, f, [v], st, false, false, fuel)
  {
    hide Apply, InlineShapeOf;
    assert EvalArgs(NoNodes, env, st, false, fuel) == Vals([], st);
    assert EvalArgs(More(x, NoNodes), env, st, false, fuel) == Vals([v], st);
  }

  lemma BlockSumRuns(a: int, n: int) returns (st: State)
    ensures EvalBody(BlockSum().body, map["a" := 0, "n" := 1, "s" := 2], State([IntV(a), IntV(n), NilV], map[]), false, 1)
         == Stop(Returned(IntV(a + n)), st) && st.self == map[]
  {
    var env: Env := map["a" := 0, "n" := 1, "s" := 2];
    var f, send := BlockV(Round([]), env), Send(Value(1), Round([]), More(Ident("n"), NoNodes));
    assert BlockSum().body == More(Assignment("s", Ident("a")), More(send, More(Node.Return(Ident("s")), NoNodes)));
    assert InlineShapeOf(send) == NotInlined;
    hide *;
    var st0, st1 := BlockSumStarts(a, n, env, f);
    var r := RoundApplied(a, n, env, st1);
    st := r.st;
    SendOne(Value(1), Round([]), Ident("n"), f, IntV(n), env, st1, 1);
    ReturnRuns("s", env, st, a + n, 1);
    ThreeRun(Assignment("s", Ident("a")), send, Node.Return(Ident("s")), env, st0, st1, st, 1);
  }

  lemma RoundApplied(a: int, n: int, env: Env, st: State) returns (r: Result)
    requires Holds(env, st, "s", a)
    ensures r == Apply(Value(1), BlockV(Round([]), env), [IntV(n)], st, false, false, 1)
    ensures r.Val? && r.st.self == st.self && Holds(env, r.st, "s", a + n)
  {
    r := RoundAdds(env, st, [], a, n, 1);
    hide Call, Holds, Round;
  }

  lemma BlockSumStarts(a: int, n: int, env: Env, f: Value) returns (st0: State, st1: State)
    requires env == map["a" := 0, "n" := 1, "s" := 2] && f == BlockV(Round([]), env)
    ensures st0 == State([IntV(a), IntV(n), NilV], map[]) && st1.self == map[] && Holds(env, st1, "s", a)
    ensures Eval(Assignment("s", Ident("a")), env, st0, false, 1) == Val(IntV(a), st1)
    ensures Eval(Ident("n"), env, st1, false, 1) == Val(IntV(n), st1) && Eval(Round([]), env, st1, false, 1) == Val(f, st1)
  {
    st0 := State([IntV(a), IntV(n), NilV], map[]);
    st1 := State([IntV(a), IntV(n), IntV(a)], map[]);
    assert Eval(Ident("a"), env, st0, false, 1) == Val(IntV(a), st0);
  }

  // ----- Arguments in their order, returns and falling off the end -----

  /** ^ [:i :j | i - j] value: a value: n */
  function BlockMinus(): Method { TwoArgs(More(Node.Return(MinusSend()), NoNodes)) }

  function MinusSend(): Node { Send(Value(2), MinusBlock(), More(Ident("a"), More(Ident("n"), NoNodes))) }

  function MinusBlock(): Node { Block1(["i", "j"], [], Binary(Sub, Ident("i"), Ident("j"))) }

  lemma BlockMinusFine()
    ensures AllFine(BlockMinus().body, OWN, {"a", "n"}, {}, 1000)
  {
    var bound, args, iv: set<string> := OWN, {"a", "n"}, {};
    MinusBlockFine(bound, args, iv);
    FineIdent("a", bound, args, iv);
    FineIdent("n", bound, args, iv);
    hide Fine, AllFine, MinusBlock;
    PairFine(Ident("a"), Ident("n"), bound, args, iv, 1, 1);
    var two := More(Ident("a"), More(Ident("n"), NoNodes));
    assert ArgCount(NoNodes) == 0 && ArgCount(two.tail) == 1 && ArgCount(two) == 2;
    FineSend(Value(2), MinusBlock(), two, bound, args, iv, 6, 2);
    FineReturn(MinusSend(), bound, args, iv, 9);
    NoneFine(bound, args, iv);
    FineMore(Node.Return(MinusSend()), NoNodes, bound, args, iv, 10, 0);
    AllFineUpTo(BlockMinus().body, bound, args, iv, 10, 1000);
  }

  lemma MinusBlockFine(bound: set<string>, args: set<string>, iv: set<string>)
    ensures Fine(MinusBlock(), bound, args, iv, 6)
  {
    var ps: seq<string> := ["i", "j"];
    var none: seq<string> := [];
    assert ps + none == ps && ps[0] == "i" && ps[1] == "j";
    assert "i" in Elems(ps) && "j" in Elems(ps) && DeclaresOk(ps + none);
    var b, a, v := bound + Elems(ps + none), (args - Elems(ps + none)) + Elems(ps), iv - Elems(ps + none);
    hide Fine, AllFine, DeclaresOk;
    FineIdent("i", b, a, v);
    FineIdent("j", b, a, v);
    FineBinary(Sub, Ident("i"), Ident("j"), b, a, v, 1, 1);
    NoneFine(b, a, v);
    FineMore(Binary(Sub, Ident("i"), Ident("j")), NoNodes, b, a, v, 3, 0);
    FineBlock(ps, [], MinusBlock().body, bound, args, iv, 3);
  }

  lemma ArgumentsKeepTheirOrder(a: int, n: int)
    ensures Answers(BlockMinus(), {}, [FInt(a), FInt(n)], map[], FInt(a - n), map[])
  {
    BlockMinusFine();
    var st := BlockMinusRuns(a, n);
    hide AllFine, EvalBody, Answers;
    TwoArgsAnswer(BlockMinus().body, 1000, a, n, 1, IntV(a - n), st);
  }

  lemma MinusBlockRuns(a: int, n: int, env: Env, st: State) returns (r: Result)
    ensures r == Call(BlockV(MinusBlock(), env), [IntV(a), IntV(n)], st, false, 1)
    ensures r.Val? && r.v == IntV(a - n) && r.st.self == st.self
  {
    r := Call(BlockV(MinusBlock(), env), [IntV(a), IntV(n)], st, false, 1);
    var names := ["i", "j"] + [];
    assert names == ["i", "j"] && names[0] == "i" && names[1] == "j";
    var env' := Activate(env, names, st);
    var st' := st.(cells := st.cells + [IntV(a), IntV(n)] + Nils(0));
    assert env'["i"] == |st.cells| && env'["j"] == |st.cells| + 1;
    var e := Binary(Sub, Ident("i"), Ident("j"));
    assert Eval(Ident("i"), env', st', false, 0) == Val(IntV(a), st');
    assert Eval(Ident("j"), env', st', false, 0) == Val(IntV(n), st');
    assert Eval(e, env', st', false, 0) == Val(IntV(a - n), st');
    hide Eval;
    assert EvalBody(More(e, NoNodes), env', st', false, 0) == Eval(e, env', st', false, 0);
  }

  lemma BlockMinusRuns(a: int, n: int) returns (st: State)
    ensures EvalBody(BlockMinus().body, map["a" := 0, "n" := 1, "s" := 2], State([IntV(a), IntV(n), NilV], map[]), false, 1)
         == Stop(Returned(IntV(a - n)), st) && st.self == map[]
  {
    var env: Env := map["a" := 0, "n" := 1, "s" := 2];
    var st0 := State([IntV(a), IntV(n), NilV], map[]);
    var f := BlockV(MinusBlock(), env);
    assert Eval(MinusBlock(), env, st0, false, 1) == Val(f, st0);
    assert Eval(Ident("a"), env, st0, false, 1) == Val(IntV(a), st0);
    assert Eval(Ident("n"), env, st0, false, 1) == Val(IntV(n), st0);
    var r := MinusBlockRuns(a, n, env, st0);
    hide Call, MinusBlock, Eval, EvalArgs;
    SendTwo(Value(2), MinusBlock(), Ident("a"), Ident("n"), f, IntV(a), IntV(n), env, st0, 1);
    assert Apply(Value(2), f, [IntV(a), IntV(n)], st0, false, false, 1) == r;
    st := r.st;
    ReturnOf(MinusSend(), env, st0, IntV(a - n), st, 1);
  }

  lemma SendTwo(sel: Selector, r: Node, x: Node, y: Node, f: Value, v: Value, w: Value, env: Env, st: State, fuel: nat)
    requires Eval(r, env, st, false, fuel) == Val(f, st) && Eval(x, env, st, false, fuel) == Val(v, st)
    requires Eval(y, env, st, false, fuel) == Val(w, st) && (sel.Value? || sel == ToDo)
    ensures Eval(Send(sel, r, More(x, More(y, NoNodes))), env, st, false, fuel) == Apply(sel, f, [v, w], st, false, false, fuel)
  {
    hide Apply;
    assert EvalArgs(NoNodes, env, st, false, fuel) == Vals([], st);
    assert EvalArgs(More(y, NoNodes), env, st, false, fuel) == Vals([w], st);
    assert [v] + [w] == [v, w];
    assert EvalArgs(More(x, More(y, NoNodes)), env, st, false, fuel) == Vals([v, w], st);
    assert InlineShapeOf(Send(sel, r, More(x, More(y, NoNodes)))) != InlineWhile;
  }

  /** ^ e */
  lemma ReturnOf(e: Node, env: Env, st0: State, v: Value, st: State, fuel: nat)
    requires Eval(e, env, st0, false, fuel) == Val(v, st)
    ensures EvalBody(More(Node.Return(e), NoNodes), env, st0, false, fuel) == Stop(Returned(v), st)
  {
    assert Eval(Node.Return(e), env, st0, false, fuel) == Stop(Returned(v), st);
    hide Eval;
  }

  /** [^ a] value. ^ n */
  function EarlyReturn(): Method { TwoArgs(More(ReturnSend(), More(Node.Return(Ident("n")), NoNodes))) }

  function ReturnSend(): Node { Send(Value(0), Block1([], [], Node.Return(Ident("a"))), NoNodes) }

  lemma BlockReturnsFromItsMethod(a: int, n: int)
    ensures Answers(EarlyReturn(), {}, [FInt(a), FInt(n)], map[], FInt(a), map[])
  {
    EarlyReturnFine();
    var st := EarlyReturnRuns(a, n);
    hide AllFine, EvalBody, Answers;
    TwoArgsAnswer(EarlyReturn().body, 1000, a, n, 1, IntV(a), st);
  }

  lemma EarlyReturnFine()
    ensures AllFine(EarlyReturn().body, OWN, {"a", "n"}, {}, 1000)
  {
    var bound, args, iv: set<string> := OWN, {"a", "n"}, {};
    var none: seq<string> := [];
    assert none + none == none && Elems(none) == {};
    var b, a, v := bound + Elems(none + none), (args - Elems(none + none)) + Elems(none), iv - Elems(none + none);
    hide Fine, AllFine;
    FineIdent("a", b, a, v);
    FineReturn(Ident("a"), b, a, v, 1);
    NoneFine(b, a, v);
    NoneFine(bound, args, iv);
    FineMore(Node.Return(Ident("a")), NoNodes, b, a, v, 2, 0);
    FineBlock([], [], More(Node.Return(Ident("a")), NoNodes), bound, args, iv, 2);
    FineSend(Value(0), Block1([], [], Node.Return(Ident("a"))), NoNodes, bound, args, iv, 3, 0);
    FineIdent("n", bound, args, iv);
    FineReturn(Ident("n"), bound, args, iv, 1);
    PairFine(ReturnSend(), Node.Return(Ident("n")), bound, args, iv, 4, 2);
    AllFineUpTo(EarlyReturn().body, bound, args, iv, 6, 1000);
  }

  lemma EarlyReturnRuns(a: int, n: int) returns (st: State)
    ensures EvalBody(EarlyReturn().body, map["a" := 0, "n" := 1, "s" := 2], State([IntV(a), IntV(n), NilV], map[]), false, 1)
         == Stop(Returned(IntV(a)), st) && st.self == map[]
  {
    var env: Env := map["a" := 0, "n" := 1, "s" := 2];
    st := State([IntV(a), IntV(n), NilV], map[]);
    var none: seq<string> := [];
    var b := Block1([], [], Node.Return(Ident("a")));
    assert Activate(env, none + none, st) == env && st.(cells := st.cells + [] + Nils(0)) == st;
    ReturnRuns("a", env, st, a, 0);
    assert EvalBody(b.body, env, st, false, 0) == Stop(Returned(IntV(a)), st);
    assert Call(BlockV(b, env), [], st, false, 1) == Stop(Returned(IntV(a)), st);
    hide Call;
    assert Eval(b, env, st, false, 1) == Val(BlockV(b, env), st) && EvalArgs(NoNodes, env, st, false, 1) == Vals([], st);
    assert Apply(Value(0), BlockV(b, env), [], st, false, false, 1) == Stop(Returned(IntV(a)), st);
    assert Eval(ReturnSend(), env, st, false, 1) == Stop(Returned(IntV(a)), st) by { hide Apply; assert InlineShapeOf(ReturnSend()) == NotInlined; }
    hide Eval;
  }

  /** A method without a return answers its receiver, whatever its last statement is worth. */
  lemma FallingOffAnswersSelf(op: BinOp, a: int, n: int)
    ensures Answers(TwoArgs(More(Binary(op, Ident("a"), Ident("n")), NoNodes)), {}, [FInt(a), FInt(n)], map[], FSelf, map[])
  {
    assert Lower<Module>(SelfV) == FSelf && Plain(SelfV) && {"a", "n"} <= OWN;
    hide *;
    OneBinaryFine(op, "a", "n", OWN, {"a", "n"}, {});
    FallsOff(op, a, n);
    TwoArgsAnswer(More(Binary(op, Ident("a"), Ident("n")), NoNodes), 3, a, n, 0, SelfV, State([IntV(a), IntV(n), NilV], map[]));
  }

  lemma FallsOff(op: BinOp, a: int, n: int)
    ensures var st, e := State([IntV(a), IntV(n), NilV], map[]), Binary(op, Ident("a"), Ident("n"));
      Finishes(EvalBody(More(e, NoNodes), map["a" := 0, "n" := 1, "s" := 2], st, false, 0), SelfV, st)
  {
    BinaryRuns(op, "a", "n", map["a" := 0, "n" := 1, "s" := 2], State([IntV(a), IntV(n), NilV], map[]), a, n, 0);
    hide Eval;
  }

  lemma OneBinaryFine(op: BinOp, x: string, y: string, bound: set<string>, args: set<string>, iv: set<string>)
    requires x in bound && y in bound
    ensures AllFine(More(Binary(op, Ident(x), Ident(y)), NoNodes), bound, args, iv, 3)
  {
    FineIdent(x, bound, args, iv);
    FineIdent(y, bound, args, iv);
    NoneFine(bound, args, iv);
    hide Fine, AllFine;
    FineBinary(op, Ident(x), Ident(y), bound, args, iv, 1, 1);
    FineMore(Binary(op, Ident(x), Ident(y)), NoNodes, bound, args, iv, 3, 0);
  }

  lemma BinaryRuns(op: BinOp, x: string, y: string, env: Env, st: State, a: int, b: int, fuel: nat)
    requires Holds(env, st, x, a) && Holds(env, st, y, b)
    ensures Eval(Binary(op, Ident(x), Ident(y)), env, st, false, fuel) == Val(Compute(op, a, b), st)
  {
    assert Eval(Ident(x), env, st, false, fuel) == Val(IntV(a), st);
    assert Eval(Ident(y), env, st, false, fuel) == Val(IntV(b), st);
  }

  // ----- Instance variables -----

  /** v := a. ^ v + w */
  function SetAndAdd(a: int): Method {
    Method([], [], More(Assignment("v", IntLit(a)), More(Node.Return(Binary(Add, Ident("v"), Ident("w"))), NoNodes)))
  }

  lemma SetAndAddFine(a: int)
    ensures Readily(SetAndAdd(a), {"v", "w"})
  {
    var none: seq<string> := [];
    var iv := {"v", "w"};
    assert none + none == none && Elems(none) == {} && iv - Elems(none) == iv;
    hide Fine, AllFine, Readily;
    LiteralFine(a, {}, {}, iv);
    FineAssign("v", IntLit(a), {}, {}, iv, 1);
    FineIdent("v", {}, {}, iv);
    FineIdent("w", {}, {}, iv);
    FineBinary(Add, Ident("v"), Ident("w"), {}, {}, iv, 1, 1);
    FineReturn(Binary(Add, Ident("v"), Ident("w")), {}, {}, iv, 3);
    PairFine(Assignment("v", IntLit(a)), Node.Return(Binary(Add, Ident("v"), Ident("w"))), {}, {}, iv, 2, 4);
    MethodFine(SetAndAdd(a), iv, 6);
  }

  /** An assignment changes that instance variable and no other. */
  lemma InstVarIsSet(a: int, v: int, w: int)
    ensures Answers(SetAndAdd(a), {"v", "w"}, [], map["v" := FInt(v), "w" := FInt(w)], FInt(a + w), map["v" := FInt(a), "w" := FInt(w)])
  {
    var self, after := map["v" := IntV(v), "w" := IntV(w)], map["v" := IntV(a), "w" := IntV(w)];
    SetAndAddFine(a);
    SetAndAddRuns(a, v, w);
    hide Answers, Readily, Run;
    assert LowerAll<Module>([]) == [];
    assert LowerSelf<Module>(self) == map["v" := FInt(v), "w" := FInt(w)];
    assert LowerSelf<Module>(after) == map["v" := FInt(a), "w" := FInt(w)];
    ReadilyRuns(SetAndAdd(a), {"v", "w"}, [], self, 0, IntV(a + w), after);
  }

  lemma SetAndAddRuns(a: int, v: int, w: int)
    ensures Run(SetAndAdd(a), [], map["v" := IntV(v), "w" := IntV(w)], false, 0)
         == Stop(Returned(IntV(a + w)), State([], map["v" := IntV(a), "w" := IntV(w)]))
  {
    var self, after := map["v" := IntV(v), "w" := IntV(w)], map["v" := IntV(a), "w" := IntV(w)];
    var none: seq<string> := [];
    var env: Env := map[];
    assert Activate(map[], none + none, State([], self)) == env && [] + Nils(0) == [];
    var st0, st1 := State([], self), State([], after);
    var set0, e := Assignment("v", IntLit(a)), Binary(Add, Ident("v"), Ident("w"));
    assert Eval(IntLit(a), env, st0, false, 0) == Val(IntV(a), st0);
    assert self["v" := IntV(a)] == after;
    assert Eval(set0, env, st0, false, 0) == Val(IntV(a), st1);
    assert Eval(Ident("v"), env, st1, false, 0) == Val(IntV(a), st1);
    assert Eval(Ident("w"), env, st1, false, 0) == Val(IntV(w), st1);
    assert Eval(e, env, st1, false, 0) == Val(IntV(a + w), st1);
    assert Eval(Node.Return(e), env, st1, false, 0) == Stop(Returned(IntV(a + w)), st1);
    hide Eval;
    assert EvalBody(More(Node.Return(e), NoNodes), env, st1, false, 0) == Stop(Returned(IntV(a + w)), st1);
    FirstRuns(set0, More(Node.Return(e), NoNodes), env, st0, st1, 0);
    RunStops(SetAndAdd(a), [], self, 0, Stop(Returned(IntV(a + w)), st1));
  }

  // ----- Messages that are not understood -----

  /** The compiled method halts for this reason. */
  ghost predicate Stops(m: Method, ivars: set<string>, args: seq<MValue>, self: map<string, MValue>, why: Why<MValue>) {
    exists n: nat :: var s := Steps(Start(Assembled(ResolveMethod(m, ivars), true), args, self), n); s.Halted? && s.why == why
  }

  lemma ReadilyStops(m: Method, ivars: set<string>, fuel: nat, why: Why<MValue>)
    requires Readily(m, ivars) && m.params == []
    requires var r := Run(m, [], map[], false, fuel); r.Stop? && forall w: Why<MValue> :: SameWhy(r.why, w) ==> w == why
    ensures Stops(m, ivars, [], map[], why)
  {
    SmallMethodsCompile(m, ivars);
    assert LowerAll<Module>([]) == [] && LowerSelf<Module>(map[]) == map[];
    hide ResolveMethod, Compiles, Run, Assembled, Start, MethodWellFormed, HaltsRelated, AllGuarded, NoneLiteralOperand, MethodSize, Steps, SameWhy, SameSelf;
    var n := GuardedMethodCompiles(m, ivars, [], map[], fuel);
    assert Steps(Start(Assembled(ResolveMethod(m, ivars), true), [], map[]), n).Halted?;
  }

  /** ^ e */
  function Answering(e: Node): Method { Method([], [], More(Node.Return(e), NoNodes)) }

  lemma AnsweringReady(e: Node, k: nat)
    requires Fine(e, {}, {}, {}, k) && k <= 1000
    ensures Readily(Answering(e), {})
  {
    var none: seq<string> := [];
    assert none + none == none && Elems(none) == {} && {} - Elems(none) == {};
    hide Fine, AllFine, Readily;
    FineReturn(e, {}, {}, {}, k);
    NoneFine({}, {}, {});
    FineMore(Node.Return(e), NoNodes, {}, {}, {}, 1 + k, 0);
    MethodFine(Answering(e), {}, 1 + k);
  }

  lemma AnsweringStops(e: Node, why: Why<Value>, fuel: nat)
    requires Eval(e, map[], State([], map[]), false, fuel) == Stop(why, State([], map[]))
    ensures Run(Answering(e), [], map[], false, fuel) == Stop(why, State([], map[]))
  {
    var none: seq<string> := [];
    var st := State([], map[]);
    assert Activate(map[], none + none, st) == map[] && State([] + Nils(0), map[]) == st;
    assert Eval(Node.Return(e), map[], st, false, fuel) == Stop(why, st);
    hide Eval;
    assert EvalBody(More(Node.Return(e), NoNodes), map[], st, false, fuel) == Stop(why, st);
    RunStops(Answering(e), [], map[], fuel, Stop(why, st));
  }

  /** ^ b op n and ^ n op b: an operator given a Boolean stops with both operands, in their order. */
  lemma OperatorsWantIntegers(op: BinOp, b: bool, n: int)
    ensures Stops(Answering(Binary(op, BoolLit(b), IntLit(n))), {}, [], map[], NotInteger(FBool(b), FInt(n)))
    ensures Stops(Answering(Binary(op, IntLit(n), BoolLit(b))), {}, [], map[], NotInteger(FInt(n), FBool(b)))
  {
    OperandStops(op, BoolLit(b), IntLit(n), BoolV(b), IntV(n), NotInteger(FBool(b), FInt(n)));
    OperandStops(op, IntLit(n), BoolLit(b), IntV(n), BoolV(b), NotInteger(FInt(n), FBool(b)));
  }

  lemma OperandStops(op: BinOp, l: Node, r: Node, v: Value, w: Value, why: Why<MValue>)
    requires Eval(l, map[], State([], map[]), false, 0) == Val(v, State([], map[])) && Fine(l, {}, {}, {}, 1)
    requires Eval(r, map[], State([], map[]), false, 0) == Val(w, State([], map[])) && Fine(r, {}, {}, {}, 1)
    requires Plain(v) && Plain(w) && !(v.IntV? && w.IntV?) && why == NotInteger(Lower(v), Lower(w))
    ensures Stops(Answering(Binary(op, l, r)), {}, [], map[], why)
  {
    var e := Binary(op, l, r);
    FineBinary(op, l, r, {}, {}, {}, 1, 1);
    AnsweringReady(e, 3);
    assert Eval(e, map[], State([], map[]), false, 0) == Stop(NotInteger(v, w), State([], map[]));
    AnsweringStops(e, NotInteger(v, w), 0);
    hide Fine, Eval, Run, Stops, Readily;
    ReadilyStops(Answering(e), {}, 0, why);
  }

  /** ^ n ifTrue: [x] and ^ n ifFalse: [x]: the Integer does not understand the message, and the block is not run. */
  lemma ConditionalsWantBooleans(sel: Selector, n: int, x: int, ts: seq<string>)
    requires sel in {IfTrue, IfFalse}
    requires DeclaresOk(ts) && |ts| <= 900
    ensures Stops(Answering(Send(sel, IntLit(n), More(Just(ts, x), NoNodes))), {}, [], map[], Dnu(sel, FInt(n)))
  {
    var b, st := Just(ts, x), State([], map[]);
    var e := Send(sel, IntLit(n), More(b, NoNodes));
    NotUnderstoodFine(sel, n, x, ts);
    AnsweringReady(e, 905);
    assert Eval(IntLit(n), map[], st, false, 0) == Val(IntV(n), st) && Eval(b, map[], st, false, 0) == Val(BlockV(b, map[]), st);
    SendOne(sel, IntLit(n), b, IntV(n), BlockV(b, map[]), map[], st, 0);
    assert Apply(sel, IntV(n), [BlockV(b, map[])], st, false, false, 0) == Stop(Dnu(sel, IntV(n)), st);
    hide Fine, Eval, Run, Stops, Readily, Apply;
    AnsweringStops(e, Dnu(sel, IntV(n)), 0);
    ReadilyStops(Answering(e), {}, 0, Dnu(sel, FInt(n)));
  }

  lemma NotUnderstoodFine(sel: Selector, n: int, x: int, ts: seq<string>)
    requires sel in {IfTrue, IfFalse}
    requires DeclaresOk(ts) && |ts| <= 900
    ensures Fine(Send(sel, IntLit(n), More(Just(ts, x), NoNodes)), {}, {}, {}, 905)
  {
    assert [] + ts == ts;
    JustFine(ts, x);
    assert Sizes(NoNodes) == 0 && Sizes(More(IntLit(x), NoNodes)) == 1 && Size(Just(ts, x)) <= 902;
    var one := More(Just(ts, x), NoNodes);
    NoneFine({}, {}, {});
    FineMore(Just(ts, x), NoNodes, {}, {}, {}, 902, 0);
    assert ArgCount(NoNodes) == 0 && ArgCount(one) == 1;
    LiteralFine(n, {}, {}, {});
    hide Fine, AllFine, Just;
    FineSend(sel, IntLit(n), one, {}, {}, {}, 1, 902);
    FineUpTo(Send(sel, IntLit(n), one), {}, {}, {}, 904, 905);
  }
}
