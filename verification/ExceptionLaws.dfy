/** What an exception delivers: the value of a signal, the answer of an on:do:, which handler runs and when a
    protected block runs again. The laws hold under any handlers; the programs at the end are run on the
    machine with its ids and flags. */
module ExceptionLaws {
  import opened Protected
  import opened HandlerStack

  // ----- Which classes a guard takes -----

  /** The class above one, none above Exception. */
  function Above(c: Class): seq<Class> {
    match c
    case Exception => []
    case Error => [Exception]
    case Derived(_, p) => [p]
  }

  /** A class and those above it, upward. */
  predicate IsLine(line: seq<Class>) {
    line != [] && forall i :: 0 <= i < |line| - 1 ==> Above(line[i]) == [line[i + 1]]
  }

  lemma {:induction false} LineIsA(c: Class, g: Class) returns (line: seq<Class>)
    requires IsA(c, g)
    ensures IsLine(line) && line[0] == c && line[|line| - 1] == g
  {
    if c == g {
      line := [c];
    } else if c == Error {
      line := [c, g];
    } else {
      var rest := LineIsA(c.parent, g);
      line := [c] + rest;
    }
  }

  lemma {:induction false} IsALine(line: seq<Class>)
    requires IsLine(line)
    ensures IsA(line[0], line[|line| - 1])
    decreases |line|
  {
    if |line| > 1 {
      assert Above(line[0]) == [line[1]];
      IsALine(line[1..]);
    }
  }

  /** A guard takes an exception exactly when one of its classes is the exception's or stands above it. */
  lemma GuardTakes(g: Guard, c: Class)
    ensures Matches(g, c) <==> exists line: seq<Class> :: IsLine(line) && line[0] == c && line[|line| - 1] in g
  {
    if Matches(g, c) {
      var i :| 0 <= i < |g| && IsA(c, g[i]);
      var line := LineIsA(c, g[i]);
    }
    forall line: seq<Class> | IsLine(line) && line[0] == c && line[|line| - 1] in g ensures Matches(g, c) { IsALine(line); }
  }

  /** An exception may be resumed unless its class is Error or stands below it. */
  lemma {:induction false} ResumableIs(c: Class)
    ensures Resumable(c) <==> !IsA(c, Error)
  {
    if c.Derived? { ResumableIs(c.parent); }
  }

  // ----- Which handler runs, and under which -----

  predicate NoneTakes(hs: seq<Handler>, c: Class) { forall i :: 0 <= i < |hs| ==> !Matches(hs[i].guard, c) }

  lemma {:induction false} Skips(exc: Exc, hs: seq<Handler>, inner: seq<Handler>, active: seq<Active>, depth: nat, w: World)
    requires NoneTakes(inner, exc.cls)
    ensures Deliver(exc, hs + inner, active, depth, w) == Deliver(exc, hs, active, depth, w)
    decreases |inner|
  {
    if inner == [] {
      assert hs + inner == hs;
    } else {
      var n := |inner| - 1;
      assert (hs + inner)[..|hs + inner| - 1] == hs + inner[..n];
      Skips(exc, hs, inner[..n], active, depth, w);
    }
  }

  /** The world in which the handler of a new signal begins. */
  function Begun(w: World): World
    requires w.gas > 0
  {
    w.(serial := w.serial + 1, gas := w.gas - 1)
  }

  /** What the handler evaluates to: it runs in its own environment with the exception added, under the
      handlers outside its on:do: alone. */
  function HandlerRun(exc: Exc, h: Handler, outer: seq<Handler>, active: seq<Active>, depth: nat, w: World): Result {
    Eval(h.body, h.env + [Thrown(exc)], outer, active + [Active(exc, h.level)], depth, w)
  }

  lemma SignalRuns(c: Class, env: Env, outer: seq<Handler>, h: Handler, inner: seq<Handler>, active: seq<Active>, depth: nat, w: World)
    requires Matches(h.guard, c) && NoneTakes(inner, c) && w.gas > 0
    ensures var exc := Exc(c, w.serial);
      var r := HandlerRun(exc, h, outer, active, depth, Begun(w));
      Eval(Signal(c), env, outer + [h] + inner, active, depth, w) ==
        if r.out.Resumed? && r.out.level == h.level then Result(Val(r.out.v), r.w)
        else if r.out.Passed? && r.out.level == h.level then Deliver(exc, outer, active, depth, r.w)
        else if r.out.Val? then Result(Unwind(h.level, r.out.v), r.w)
        else r
  {
    var exc := Exc(c, w.serial);
    var w' := w.(serial := w.serial + 1);
    Skips(exc, outer + [h], inner, active, depth, w');
    assert (outer + [h])[..|outer|] == outer;
    hide Matches, NoneTakes;
    assert Eval(Signal(c), env, outer + [h] + inner, active, depth, w) == Deliver(exc, outer + [h] + inner, active, depth, w');
    assert w'.(gas := w'.gas - 1) == Begun(w);
  }

  /** A handler action finds the handler at work on its exception. */
  lemma AtWork(active: seq<Active>, exc: Exc, level: nat)
    ensures LevelOf(active + [Active(exc, level)], Thrown(exc)) == level
  {
  }

  lemma HandlerSees(h: Handler, exc: Exc, outer: seq<Handler>, active: seq<Active>, depth: nat, w: World)
    ensures Eval(Var(|h.env|), h.env + [Thrown(exc)], outer, active, depth, w) == Result(Val(Thrown(exc)), w)
  {
  }

  // ----- resume: -----

  /** `e resume: v` makes the signal answer v's value; the code after it goes on in the same environment and
      under the same handlers, in the world that evaluating v left. */
  lemma ResumeDelivers(c: Class, env: Env, outer: seq<Handler>, h: Handler, inner: seq<Handler>, active: seq<Active>, depth: nat, w: World,
                       value: Exp, x: Value, w2: World, rest: Exp)
    requires Matches(h.guard, c) && NoneTakes(inner, c) && w.gas > 0 && Resumable(c)
    requires h.body == ResumeWith(Var(|h.env|), value)
    requires var exc := Exc(c, w.serial);
      Eval(value, h.env + [Thrown(exc)], outer, active + [Active(exc, h.level)], depth, Begun(w)) == Result(Val(x), w2)
    ensures var hs := outer + [h] + inner;
      && Eval(Signal(c), env, hs, active, depth, w) == Result(Val(x), w2)
      && Eval(Then(Signal(c), rest), env, hs, active, depth, w) == Eval(rest, env, hs, active, depth, w2)
  {
    var exc, hs := Exc(c, w.serial), outer + [h] + inner;
    SignalRuns(c, env, outer, h, inner, active, depth, w);
    AtWork(active, exc, h.level);
    HandlerSees(h, exc, outer, active + [Active(exc, h.level)], depth, Begun(w));
    hide Deliver, Fresh, LevelOf, Matches, Resumable;
    assert HandlerRun(exc, h, outer, active, depth, Begun(w)) == Result(Resumed(h.level, x), w2);
    hide Eval;
    assert Eval(Signal(c), env, hs, active, depth, w) == Result(Val(x), w2);
    ThenGoesOn(Signal(c), rest, env, hs, active, depth, w, x, w2);
  }

  lemma ThenGoesOn(a: Exp, b: Exp, env: Env, hs: seq<Handler>, active: seq<Active>, depth: nat, w: World, x: Value, w2: World)
    requires Eval(a, env, hs, active, depth, w) == Result(Val(x), w2)
    ensures Eval(Then(a, b), env, hs, active, depth, w) == Eval(b, env, hs, active, depth, w2)
  {
  }

  lemma ThenLeaves(a: Exp, b: Exp, env: Env, hs: seq<Handler>, active: seq<Active>, depth: nat, w: World)
    requires !Eval(a, env, hs, active, depth, w).out.Val?
    ensures Eval(Then(a, b), env, hs, active, depth, w) == Eval(a, env, hs, active, depth, w)
  {
  }

  // ----- return: and falling off the end -----

  /** The on:do: block that signals: its handler is the innermost, and takes the class. */
  predicate Caught(c: Class, g: Guard, w: World) { Matches(g, c) && w.gas > 0 }

  /** What the handler of `[c signal. rest] on: g do: h` evaluates to, and what that on:do: then does. */
  lemma OnDoRuns(c: Class, rest: Exp, g: Guard, handler: Exp, env: Env, hs: seq<Handler>, active: seq<Active>, depth: nat, w: World)
    requires Caught(c, g, w)
    ensures var h, exc := Handler(g, handler, env, depth), Exc(c, w.serial);
      var r := HandlerRun(exc, h, hs, active, depth + 1, Begun(w));
      var all := Eval(OnDo(Then(Signal(c), rest), g, handler), env, hs, active, depth, w);
      && (r.out.Val? ==> all == Result(Val(r.out.v), r.w))
      && (r.out.Unwind? ==> all == if r.out.level == depth then Result(Val(r.out.v), r.w) else r)
      && (r.out.Again? && r.out.level == depth ==>
            all == if r.w.gas == 0 then Result(OutOfGas, r.w)
                   else Eval(OnDo(Then(Signal(c), rest), g, handler), env, hs, active, depth, r.w.(gas := r.w.gas - 1)))
      && (r.out.Passed? && r.out.level == depth ==>
            var d := Deliver(exc, hs, active, depth + 1, r.w);
            d.out.Unwind? && d.out.level != depth ==> all == d)
      && (r.out.Unhandled? || r.out.Left? || r.out.Suspended? || r.out.OutOfGas? ==> all == r)
  {
    var h, exc := Handler(g, handler, env, depth), Exc(c, w.serial);
    assert hs + [h] + [] == hs + [h];
    SignalRuns(c, env, hs, h, [], active, depth + 1, w);
    var r := HandlerRun(exc, h, hs, active, depth + 1, Begun(w));
    hide Deliver, Fresh, LevelOf, Matches, HandlerRun;
    var s := Eval(Signal(c), env, hs + [h], active, depth + 1, w);
    if !s.out.Val? { ThenLeaves(Signal(c), rest, env, hs + [h], active, depth + 1, w); }
  }

  /** `[c signal. rest] on: g do: [:e | e return: v]` answers v's value, and the rest does not run. */
  lemma ReturnAnswers(c: Class, rest: Exp, g: Guard, env: Env, hs: seq<Handler>, active: seq<Active>, depth: nat, w: World,
                      value: Exp, x: Value, w2: World)
    requires Caught(c, g, w)
    requires var exc := Exc(c, w.serial);
      Eval(value, env + [Thrown(exc)], hs, active + [Active(exc, depth)], depth + 1, Begun(w)) == Result(Val(x), w2)
    ensures Eval(OnDo(Then(Signal(c), rest), g, ReturnWith(Var(|env|), value)), env, hs, active, depth, w) == Result(Val(x), w2)
  {
    var h, exc := Handler(g, ReturnWith(Var(|env|), value), env, depth), Exc(c, w.serial);
    OnDoRuns(c, rest, g, h.body, env, hs, active, depth, w);
    AtWork(active, exc, depth);
    HandlerSees(h, exc, hs, active + [Active(exc, depth)], depth + 1, Begun(w));
    hide Deliver, Fresh, LevelOf, Matches;
    assert HandlerRun(exc, h, hs, active, depth + 1, Begun(w)) == Result(Unwind(depth, x), w2);
  }

  /** So does `on: g do: [:e | v]`, a handler that falls off its end. */
  lemma FallingOffAnswers(c: Class, rest: Exp, g: Guard, env: Env, hs: seq<Handler>, active: seq<Active>, depth: nat, w: World,
                          value: Exp, x: Value, w2: World)
    requires Caught(c, g, w)
    requires var exc := Exc(c, w.serial);
      Eval(value, env + [Thrown(exc)], hs, active + [Active(exc, depth)], depth + 1, Begun(w)) == Result(Val(x), w2)
    ensures Eval(OnDo(Then(Signal(c), rest), g, value), env, hs, active, depth, w) == Result(Val(x), w2)
  {
    OnDoRuns(c, rest, g, value, env, hs, active, depth, w);
    hide Deliver, Fresh, LevelOf, Matches, Eval;
  }

  // ----- retry -----

  /** `e retry` runs the block again, under the same handlers. */
  lemma RetryRunsAgain(c: Class, rest: Exp, g: Guard, env: Env, hs: seq<Handler>, active: seq<Active>, depth: nat, w: World)
    requires Caught(c, g, w) && w.gas > 1
    ensures var e := OnDo(Then(Signal(c), rest), g, Retry(Var(|env|)));
      Eval(e, env, hs, active, depth, w) == Eval(e, env, hs, active, depth, w.(serial := w.serial + 1, gas := w.gas - 2))
  {
    var h, exc := Handler(g, Retry(Var(|env|)), env, depth), Exc(c, w.serial);
    OnDoRuns(c, rest, g, h.body, env, hs, active, depth, w);
    AtWork(active, exc, depth);
    HandlerSees(h, exc, hs, active + [Active(exc, depth)], depth + 1, Begun(w));
    hide Deliver, Fresh, LevelOf, Matches;
    assert HandlerRun(exc, h, hs, active, depth + 1, Begun(w)) == Result(Again(depth), Begun(w));
    assert Begun(w).(gas := Begun(w).gas - 1) == w.(serial := w.serial + 1, gas := w.gas - 2);
  }

  // ----- pass -----

  /** `e pass` hands the same exception to the next handler outside that takes it: the signal answers what that
      one resumes with, here the exception that it sees. */
  lemma PassReachesOuter(c: Class, env: Env, outer: seq<Handler>, h: Handler, between: seq<Handler>, h1: Handler, inner: seq<Handler>,
                         active: seq<Active>, depth: nat, w: World)
    requires Matches(h1.guard, c) && NoneTakes(inner, c) && Matches(h.guard, c) && NoneTakes(between, c)
    requires w.gas > 1 && h1.body == Pass(Var(|h1.env|))
    ensures var exc := Exc(c, w.serial);
      var r := HandlerRun(exc, h, outer, active, depth, w.(serial := w.serial + 1, gas := w.gas - 2));
      var all := Eval(Signal(c), env, outer + [h] + between + [h1] + inner, active, depth, w);
      && (r.out.Val? ==> all == Result(Unwind(h.level, r.out.v), r.w))
      && (r.out.Resumed? && r.out.level == h.level ==> all == Result(Val(r.out.v), r.w))
      && (r.out.Unwind? || r.out.Again? || r.out.Unhandled? ==> all == r)
  {
    var exc := Exc(c, w.serial);
    var hs := outer + [h] + between;
    SignalRuns(c, env, hs, h1, inner, active, depth, w);
    AtWork(active, exc, h1.level);
    HandlerSees(h1, exc, hs, active + [Active(exc, h1.level)], depth, Begun(w));
    assert HandlerRun(exc, h1, hs, active, depth, Begun(w)) == Result(Passed(h1.level), Begun(w)) by {
      hide Deliver, Fresh, LevelOf, Matches;
    }
    Skips(exc, outer + [h], between, active, depth, Begun(w));
    assert (outer + [h])[..|outer|] == outer;
    hide Eval, LevelOf, Matches, Fresh;
    assert Begun(w).(gas := Begun(w).gas - 1) == w.(serial := w.serial + 1, gas := w.gas - 2);
  }

  // ----- No handler -----

  /** An exception that no handler takes: resumable ones answer nil and the code goes on, an Error ends it. */
  lemma DefaultAnswers(c: Class, env: Env, hs: seq<Handler>, active: seq<Active>, depth: nat, w: World)
    requires NoneTakes(hs, c)
    ensures Eval(Signal(c), env, hs, active, depth, w)
         == Result(if IsA(c, Error) then Unhandled(Exc(c, w.serial)) else Val(Nil), w.(serial := w.serial + 1))
  {
    var w', exc := w.(serial := w.serial + 1), Exc(c, w.serial);
    assert [] + hs == hs;
    Skips(exc, [], hs, active, depth, w');
    ResumableIs(c);
    hide Matches;
  }

  /** return:, resume:, retry and pass for an exception that no handler is at work on signal an Error, as does
      resume: for an Error. */
  lemma ActionsNeedTheirHandler(x: nat, value: Exp, env: Env, hs: seq<Handler>, active: seq<Active>, depth: nat, w: World, v: Value)
    requires Eval(value, env, hs, active, depth, w) == Result(Val(v), w)
    requires LevelOf(active, Lookup(env, x)) < 0
    ensures var e := Eval(Signal(Error), env, hs, active, depth, w);
      && Eval(ReturnWith(Var(x), value), env, hs, active, depth, w) == e && Eval(ResumeWith(Var(x), value), env, hs, active, depth, w) == e
      && Eval(Retry(Var(x)), env, hs, active, depth, w) == e && Eval(Pass(Var(x)), env, hs, active, depth, w) == e
  {
    hide Fresh, Deliver, LevelOf;
    assert Eval(Var(x), env, hs, active, depth, w) == Result(Val(Lookup(env, x)), w);
  }

  lemma ErrorsAreNotResumed(x: nat, value: Exp, env: Env, hs: seq<Handler>, active: seq<Active>, depth: nat, w: World, v: Value)
    requires Eval(value, env, hs, active, depth, w) == Result(Val(v), w)
    requires Lookup(env, x).Thrown? && IsA(Lookup(env, x).exc.cls, Error)
    ensures Eval(ResumeWith(Var(x), value), env, hs, active, depth, w) == Eval(Signal(Error), env, hs, active, depth, w)
  {
    ResumableIs(Lookup(env, x).exc.cls);
    hide Fresh, Deliver, LevelOf;
    assert Eval(Var(x), env, hs, active, depth, w) == Result(Val(Lookup(env, x)), w);
  }

  // ----- Programs on the machine -----

  /** The body of an on:do: that ends with a value is its answer. */
  lemma OnDoAnswers(body: Exp, g: Guard, handler: Exp, env: Env, hs: seq<Handler>, active: seq<Active>, depth: nat, w: World)
    requires Eval(body, env, hs + [Handler(g, handler, env, depth)], active, depth + 1, w).out.Val?
    ensures Eval(OnDo(body, g, handler), env, hs, active, depth, w)
         == Eval(body, env, hs + [Handler(g, handler, env, depth)], active, depth + 1, w)
  {
  }

  lemma LitIs(n: int, env: Env, hs: seq<Handler>, active: seq<Active>, depth: nat, w: World)
    ensures Eval(Lit(n), env, hs, active, depth, w) == Result(Val(Int(n)), w)
  {
  }

  /** `[c signal. mark] on: g do: [:e | e resume: n]`: the mark is seen, in code that goes on. */
  lemma ResumeMeaning(c: Class, g: Guard, n: int, k: nat, w: World)
    requires Caught(c, g, w) && Resumable(c)
    ensures Eval(OnDo(Signal(c), g, ResumeWith(Var(0), Lit(n))), [], [], [], 0, w) == Result(Val(Int(n)), Begun(w))
    ensures Eval(OnDo(Then(Signal(c), Mark(k)), g, ResumeWith(Var(0), Lit(n))), [], [], [], 0, w)
         == Result(Val(Nil), Log(Begun(w), Seen(k)))
  {
    var env: Env := [];
    var h := Handler(g, ResumeWith(Var(0), Lit(n)), env, 0);
    var exc := Exc(c, w.serial);
    LitIs(n, [] + [Thrown(exc)], [], [] + [Active(exc, 0)], 1, Begun(w));
    assert [] + [h] + [] == [] + [h];
    ResumeDelivers(c, env, [], h, [], [], 1, w, Lit(n), Int(n), Begun(w), Mark(k));
    hide Deliver, Fresh, Matches, Resumable;
    assert Eval(Mark(k), env, [] + [h], [], 1, Begun(w)) == Result(Val(Nil), Log(Begun(w), Seen(k)));
    OnDoAnswers(Signal(c), g, h.body, env, [], [], 0, w);
    OnDoAnswers(Then(Signal(c), Mark(k)), g, h.body, env, [], [], 0, w);
  }

  method Resume(c: Class, g: Guard, n: int, k: nat, w: World) returns (o: Out, end: World)
    requires Caught(c, g, w) && Resumable(c)
    ensures o == Val(Int(n)) && end == Begun(w)
  {
    ResumeMeaning(c, g, n, k, w);
    hide Eval;
    o, end := RunProgram(OnDo(Signal(c), g, ResumeWith(Var(0), Lit(n))), w);
  }

  method ResumeGoesOn(c: Class, g: Guard, n: int, k: nat, w: World) returns (o: Out, end: World)
    requires Caught(c, g, w) && Resumable(c)
    ensures o == Val(Nil) && end.trace == w.trace + [Seen(k)]
  {
    ResumeMeaning(c, g, n, k, w);
    hide Eval;
    o, end := RunProgram(OnDo(Then(Signal(c), Mark(k)), g, ResumeWith(Var(0), Lit(n))), w);
  }

  /** `[c signal. mark] on: g do: [:e | e return: n]` and `... do: [n]`: the answer is n, and the mark is not seen. */
  method Return(c: Class, g: Guard, n: int, k: nat, w: World) returns (o: Out, end: World)
    requires Caught(c, g, w)
    ensures o == Val(Int(n)) && end == Begun(w)
  {
    LitIs(n, [] + [Thrown(Exc(c, w.serial))], [], [] + [Active(Exc(c, w.serial), 0)], 1, Begun(w));
    ReturnAnswers(c, Mark(k), g, [], [], [], 0, w, Lit(n), Int(n), Begun(w));
    hide Eval;
    o, end := RunProgram(OnDo(Then(Signal(c), Mark(k)), g, ReturnWith(Var(0), Lit(n))), w);
  }

  method FallOff(c: Class, g: Guard, n: int, k: nat, w: World) returns (o: Out, end: World)
    requires Caught(c, g, w)
    ensures o == Val(Int(n)) && end == Begun(w)
  {
    LitIs(n, [] + [Thrown(Exc(c, w.serial))], [], [] + [Active(Exc(c, w.serial), 0)], 1, Begun(w));
    FallingOffAnswers(c, Mark(k), g, [], [], [], 0, w, Lit(n), Int(n), Begun(w));
    hide Eval;
    o, end := RunProgram(OnDo(Then(Signal(c), Mark(k)), g, Lit(n)), w);
  }

  /** `[[c signal] on: g do: [:e | e pass]] on: g2 do: [:e | e]` answers the exception that was signalled. */
  method PassOn(c: Class, g: Guard, g2: Guard, w: World) returns (o: Out, end: World)
    requires Matches(g, c) && Matches(g2, c) && w.gas > 1
    ensures o == Val(Thrown(Exc(c, w.serial))) && end.trace == w.trace
  {
    PassMeaning(c, g, g2, w);
    hide Eval;
    o, end := RunProgram(OnDo(OnDo(Signal(c), g, Pass(Var(0))), g2, Var(0)), w);
  }

  lemma PassMeaning(c: Class, g: Guard, g2: Guard, w: World)
    requires Matches(g, c) && Matches(g2, c) && w.gas > 1
    ensures Eval(OnDo(OnDo(Signal(c), g, Pass(Var(0))), g2, Var(0)), [], [], [], 0, w)
         == Result(Val(Thrown(Exc(c, w.serial))), w.(serial := w.serial + 1, gas := w.gas - 2))
  {
    var env: Env, exc := [], Exc(c, w.serial);
    var h, h1 := Handler(g2, Var(0), env, 0), Handler(g, Pass(Var(0)), env, 1);
    var w2 := w.(serial := w.serial + 1, gas := w.gas - 2);
    assert [] + [h] + [] + [h1] + [] == [] + [h] + [h1];
    PassReachesOuter(c, env, [], h, [], h1, [], [], 2, w);
    HandlerSees(h, exc, [], [] + [Active(exc, 0)], 2, w2);
    hide Deliver, Fresh, LevelOf, Matches;
    var r := Eval(Signal(c), env, [] + [h] + [h1], [], 2, w);
    assert r == Result(Unwind(0, Thrown(exc)), w2);
    assert Eval(OnDo(Signal(c), g, Pass(Var(0))), env, [] + [h], [], 1, w) == r;
  }

  /** Of two guards the inner one is asked first, and only when it does not take the class the outer one. */
  method Innermost(c: Class, g: Guard, g2: Guard, n: int, n2: int, w: World) returns (o: Out, end: World)
    requires (Matches(g, c) || Matches(g2, c)) && w.gas > 0
    ensures o == Val(Int(if Matches(g, c) then n else n2))
  {
    InnermostMeaning(c, g, g2, n, n2, w);
    hide Eval;
    o, end := RunProgram(OnDo(OnDo(Signal(c), g, Lit(n)), g2, Lit(n2)), w);
  }

  lemma InnermostMeaning(c: Class, g: Guard, g2: Guard, n: int, n2: int, w: World)
    requires (Matches(g, c) || Matches(g2, c)) && w.gas > 0
    ensures Eval(OnDo(OnDo(Signal(c), g, Lit(n)), g2, Lit(n2)), [], [], [], 0, w)
         == Result(Val(Int(if Matches(g, c) then n else n2)), Begun(w))
  {
    var env: Env, exc := [], Exc(c, w.serial);
    var h, h1 := Handler(g2, Lit(n2), env, 0), Handler(g, Lit(n), env, 1);
    if Matches(g, c) {
      assert [] + [h] + [h1] + [] == [] + [h] + [h1];
      SignalRuns(c, env, [] + [h], h1, [], [], 2, w);
      LitIs(n, env + [Thrown(exc)], [] + [h], [] + [Active(exc, 1)], 2, Begun(w));
    } else {
      SignalRuns(c, env, [], h, [h1], [], 2, w);
      LitIs(n2, env + [Thrown(exc)], [], [] + [Active(exc, 0)], 2, Begun(w));
    }
    hide Deliver, Fresh, LevelOf, Matches;
    var r := Eval(Signal(c), env, [] + [h] + [h1], [], 2, w);
    assert r == if Matches(g, c) then Result(Unwind(1, Int(n)), Begun(w)) else Result(Unwind(0, Int(n2)), Begun(w));
    assert Eval(OnDo(Signal(c), g, Lit(n)), env, [] + [h], [], 1, w)
        == if Matches(g, c) then Result(Val(Int(n)), Begun(w)) else r;
  }

  /** A handler does not take what it signals itself: `[[c signal] on: g do: [c signal]] on: g2 do: [n]`. */
  method HandlersRunOutside(c: Class, g: Guard, g2: Guard, n: int, w: World) returns (o: Out, end: World)
    requires Matches(g, c) && Matches(g2, c) && w.gas > 1
    ensures o == Val(Int(n))
  {
    OutsideMeaning(c, g, g2, n, w);
    hide Eval;
    o, end := RunProgram(OnDo(OnDo(Signal(c), g, Signal(c)), g2, Lit(n)), w);
  }

  lemma OutsideMeaning(c: Class, g: Guard, g2: Guard, n: int, w: World)
    requires Matches(g, c) && Matches(g2, c) && w.gas > 1
    ensures Eval(OnDo(OnDo(Signal(c), g, Signal(c)), g2, Lit(n)), [], [], [], 0, w) == Result(Val(Int(n)), Begun(Begun(w)))
  {
    var env: Env, exc := [], Exc(c, w.serial);
    var h, h1 := Handler(g2, Lit(n), env, 0), Handler(g, Signal(c), env, 1);
    var env1, active1 := env + [Thrown(exc)], [] + [Active(exc, 1)];
    var exc2 := Exc(c, Begun(w).serial);
    assert [] + [h] + [h1] + [] == [] + [h] + [h1] && [] + [h] + [] == [] + [h];
    SignalRuns(c, env, [] + [h], h1, [], [], 2, w);
    SignalRuns(c, env1, [], h, [], active1, 2, Begun(w));
    LitIs(n, env + [Thrown(exc2)], [], active1 + [Active(exc2, 0)], 2, Begun(Begun(w)));
    hide Deliver, Fresh, LevelOf, Matches;
    var r := Eval(Signal(c), env, [] + [h] + [h1], [], 2, w);
    assert r == Result(Unwind(0, Int(n)), Begun(Begun(w)));
    assert Eval(OnDo(Signal(c), g, Signal(c)), env, [] + [h], [], 1, w) == r;
  }

  // ----- A block that is retried until it succeeds -----

  /** `[mark. again ifTrue: [c signal] ifFalse: [n]] on: g do: [:e | e retry]`, where the data say `again`
      m times and then no more: the block runs m + 1 times, and its last value is the answer. */
  function Trying(c: Class, g: Guard, k: nat, n: int): Exp { OnDo(Then(Mark(k), Choose(Signal(c), Lit(n))), g, Retry(Var(0))) }

  function Agains(m: nat): seq<bool> { seq(m, i => true) + [false] }

  function Marks(k: nat, m: nat): seq<Event> { seq(m, i => Seen(k)) }

  lemma {:induction false} RetryMeaning(c: Class, g: Guard, k: nat, n: int, m: nat, w: World)
    requires Matches(g, c) && w.choices == Agains(m) && w.gas >= 2 * m
    ensures var r := Eval(Trying(c, g, k, n), [], [], [], 0, w);
      r.out == Val(Int(n)) && r.w.trace == w.trace + Marks(k, m + 1)
    decreases m
  {
    var env: Env, body := [], Then(Mark(k), Choose(Signal(c), Lit(n)));
    var h := Handler(g, Retry(Var(0)), env, 0);
    var w1 := Log(w, Seen(k));
    TryOnce(c, g, k, n, w);
    assert w.choices[0] == (m > 0);
    if m == 0 {
      assert w.trace + [Seen(k)] == w.trace + Marks(k, 1);
    } else {
      var w2 := w1.(choices := w.choices[1..], serial := w.serial + 1, gas := w.gas - 2);
      assert w2.choices == Agains(m - 1);
      RetryMeaning(c, g, k, n, m - 1, w2);
      assert w.trace + [Seen(k)] + Marks(k, m) == w.trace + Marks(k, m + 1);
    }
  }

  /** One attempt. */
  lemma TryOnce(c: Class, g: Guard, k: nat, n: int, w: World)
    requires Matches(g, c) && w.choices != [] && (w.choices[0] ==> w.gas > 1)
    ensures var w1 := Log(w, Seen(k)).(choices := w.choices[1..]);
      Eval(Trying(c, g, k, n), [], [], [], 0, w) ==
        if w.choices[0] then Eval(Trying(c, g, k, n), [], [], [], 0, w1.(serial := w.serial + 1, gas := w.gas - 2))
        else Result(Val(Int(n)), w1)
  {
    var env: Env, choice := [], Choose(Signal(c), Lit(n));
    var h := Handler(g, Retry(Var(0)), env, 0);
    var w1 := Log(w, Seen(k)).(choices := w.choices[1..]);
    var body := Then(Mark(k), choice);
    ThenGoesOn(Mark(k), choice, env, [] + [h], [], 1, w, Nil, Log(w, Seen(k)));
    LitIs(n, env, [] + [h], [], 1, w1);
    if w.choices[0] {
      var exc := Exc(c, w.serial);
      assert [] + [h] + [] == [] + [h];
      SignalRuns(c, env, [], h, [], [], 1, w1);
      AtWork([], exc, 0);
      HandlerSees(h, exc, [], [] + [Active(exc, 0)], 1, Begun(w1));
      hide Deliver, Fresh, LevelOf, Matches;
      assert HandlerRun(exc, h, [], [], 1, Begun(w1)) == Result(Again(0), Begun(w1));
      assert Eval(choice, env, [] + [h], [], 1, Log(w, Seen(k))) == Result(Again(0), Begun(w1));
      assert Eval(body, env, [] + [h], [], 1, w) == Result(Again(0), Begun(w1));
      assert Begun(w1).(gas := Begun(w1).gas - 1) == w1.(serial := w.serial + 1, gas := w.gas - 2);
    } else {
      hide Deliver, Fresh, LevelOf, Matches;
      assert Eval(choice, env, [] + [h], [], 1, Log(w, Seen(k))) == Result(Val(Int(n)), w1);
      assert Eval(body, env, [] + [h], [], 1, w) == Result(Val(Int(n)), w1);
    }
  }

  method RetryUntil(c: Class, g: Guard, k: nat, n: int, m: nat, w: World) returns (o: Out, end: World)
    requires Matches(g, c) && w.choices == Agains(m) && w.gas >= 2 * m
    ensures o == Val(Int(n)) && end.trace == w.trace + Marks(k, m + 1)
  {
    RetryMeaning(c, g, k, n, m, w);
    hide Eval;
    o, end := RunProgram(Trying(c, g, k, n), w);
  }
}
