/** The meaning of the exception protocol: a program is evaluated under the list of handlers that
    enclose it, and a handler runs under the handlers outside its own on:do:. Nothing here has
    an id or an enabled flag. */
module Protected {

  /** Exception classes. Error and its subclasses may not be resumed. */
  datatype Class = Exception | Error | Derived(name: nat, parent: Class)

  predicate IsA(c: Class, g: Class) {
    c == g || (c == Error && g == Exception) || (c.Derived? && IsA(c.parent, g))
  }

  predicate Resumable(c: Class) {
    match c
    case Exception => true
    case Error => false
    case Derived(_, p) => Resumable(p)
  }

  /** An exception instance; its serial number is its identity. */
  datatype Exc = Exc(cls: Class, serial: nat)

  datatype Value = Nil | Int(n: int) | Thrown(exc: Exc)

  /** A guard is a class or a set of classes. */
  type Guard = seq<Class>

  predicate Matches(g: Guard, c: Class) { exists i :: 0 <= i < |g| && IsA(c, g[i]) }

  datatype Exp =
    | Lit(v: int)
    | Var(x: nat)
    | Mark(k: nat)                      // something an observer sees
    | Then(a: Exp, b: Exp)
    | Choose(a: Exp, b: Exp)            // decided by the data
    | Signal(cls: Class)
    | Resignal(exc: Exp)
    | OnDo(body: Exp, guard: Guard, handler: Exp)
    | OnDoOnDo(body: Exp, guard: Guard, handler: Exp, guard2: Guard, handler2: Exp)
    | ReturnWith(exc: Exp, value: Exp)
    | ResumeWith(exc: Exp, value: Exp)
    | Retry(exc: Exp)
    | Pass(exc: Exp)
    | Ensure(k: nat, body: Exp, cleanup: Exp)
    | IfCurtailed(k: nat, body: Exp, cleanup: Exp)
    | Leave(value: Exp)                 // `^ value`
    | Wait                              // a cooperative yield

  type Env = seq<Value>

  /** `level` is the number of on:do: guards in progress around the one this handler belongs to. */
  datatype Handler = Handler(guard: Guard, body: Exp, env: Env, level: nat)

  /** A handler at work: the exception it handles and its level. */
  datatype Active = Active(exc: Exc, level: nat)

  /** How an evaluation ends: with a value, or with a transfer still under way. */
  datatype Out =
    | Val(v: Value)
    | Unwind(level: nat, v: Value)
    | Again(level: nat)
    | Resumed(level: nat, v: Value)
    | Passed(level: nat)
    | Unhandled(exc: Exc)
    | Left(v: Value)
    | Suspended
    | OutOfGas

  /** What an observer sees: marks, and for each ensure: or ifCurtailed: when its block was left (by a
      transfer or not), when its cleanup started and when a transfer left that cleanup (the block having
      been left by one or not). */
  datatype Event = Seen(k: nat) | Ended(k: nat, curtailed: bool) | Cleaning(k: nat) | Broke(k: nat, curtailed: bool)

  /** `gas` bounds the handlers run and the retries; `choices` stands for the data. */
  datatype World = World(gas: nat, serial: nat, choices: seq<bool>, trace: seq<Event>)

  datatype Result = Result(out: Out, w: World)

  predicate IsTransfer(out: Out) { !out.Val? && !out.Suspended? && !out.OutOfGas? }

  function Log(w: World, ev: Event): World { w.(trace := w.trace + [ev]) }

  function Lookup(env: Env, x: nat): Value { if x < |env| then env[x] else Nil }

  /** The level of the handler at work on an exception, the innermost first. */
  function LevelOf(active: seq<Active>, v: Value): (r: int)
    ensures r >= -1
    ensures r >= 0 ==> exists i :: 0 <= i < |active| && active[i].level == r
  {
    if active == [] || !v.Thrown? then -1
    else if active[|active| - 1].exc == v.exc then active[|active| - 1].level
    else LevelOf(active[..|active| - 1], v)
  }

  function Eval(e: Exp, env: Env, hs: seq<Handler>, active: seq<Active>, depth: nat, w: World): (r: Result)
    ensures r.w.gas <= w.gas
    decreases w.gas, 1, e
  {
    match e
    case Lit(n) => Result(Val(Int(n)), w)
    case Var(x) => Result(Val(Lookup(env, x)), w)
    case Mark(k) => Result(Val(Nil), Log(w, Seen(k)))
    case Then(a, b) =>
      var r := Eval(a, env, hs, active, depth, w);
      if r.out.Val? then Eval(b, env, hs, active, depth, r.w) else r
    case Choose(a, b) =>
      if w.choices != [] && w.choices[0] then Eval(a, env, hs, active, depth, w.(choices := w.choices[1..]))
      else Eval(b, env, hs, active, depth, if w.choices == [] then w else w.(choices := w.choices[1..]))
    case Signal(c) => Fresh(c, hs, active, depth, w)
    case Resignal(x) =>
      var r := Eval(x, env, hs, active, depth, w);
      if !r.out.Val? then r
      else if r.out.v.Thrown? then Deliver(r.out.v.exc, hs, active, depth, r.w)
      else Fresh(Error, hs, active, depth, r.w)
    case OnDo(body, g, h) =>
      var r := Eval(body, env, hs + [Handler(g, h, env, depth)], active, depth + 1, w);
      if r.out.Unwind? && r.out.level == depth then Result(Val(r.out.v), r.w)
      else if r.out.Again? && r.out.level == depth then
        if r.w.gas == 0 then Result(OutOfGas, r.w) else Eval(e, env, hs, active, depth, r.w.(gas := r.w.gas - 1))
      else r
    case OnDoOnDo(body, g, h, g2, h2) =>
      var r := Eval(body, env, hs + [Handler(g, h, env, depth), Handler(g2, h2, env, depth + 1)], active, depth + 2, w);
      if r.out.Unwind? && depth <= r.out.level <= depth + 1 then Result(Val(r.out.v), r.w)
      else if r.out.Again? && depth <= r.out.level <= depth + 1 then
        if r.w.gas == 0 then Result(OutOfGas, r.w) else Eval(e, env, hs, active, depth, r.w.(gas := r.w.gas - 1))
      else r
    case ReturnWith(x, v) =>
      var r := Eval(x, env, hs, active, depth, w);
      if !r.out.Val? then r
      else
        var s := Eval(v, env, hs, active, depth, r.w);
        if !s.out.Val? then s
        else
          var l := LevelOf(active, r.out.v);
          if l < 0 then Fresh(Error, hs, active, depth, s.w) else Result(Unwind(l, s.out.v), s.w)
    case ResumeWith(x, v) =>
      var r := Eval(x, env, hs, active, depth, w);
      if !r.out.Val? then r
      else
        var s := Eval(v, env, hs, active, depth, r.w);
        if !s.out.Val? then s
        else
          var l := LevelOf(active, r.out.v);
          if l < 0 || !Resumable(r.out.v.exc.cls) then Fresh(Error, hs, active, depth, s.w)
          else Result(Resumed(l, s.out.v), s.w)
    case Retry(x) =>
      var r := Eval(x, env, hs, active, depth, w);
      if !r.out.Val? then r
      else
        var l := LevelOf(active, r.out.v);
        if l < 0 then Fresh(Error, hs, active, depth, r.w) else Result(Again(l), r.w)
    case Pass(x) =>
      var r := Eval(x, env, hs, active, depth, w);
      if !r.out.Val? then r
      else
        var l := LevelOf(active, r.out.v);
        if l < 0 then Fresh(Error, hs, active, depth, r.w) else Result(Passed(l), r.w)
    case Ensure(k, body, cleanup) =>
      var r := Eval(body, env, hs, active, depth, w);
      if r.out.Suspended? || r.out.OutOfGas? then r
      else
        var c := Eval(cleanup, env, hs, active, depth, Log(Log(r.w, Ended(k, !r.out.Val?)), Cleaning(k)));
        // The first run stands inside the try when the block ended normally.
        if r.out.Val? && IsTransfer(c.out) then
          Cleaned(k, c.out, Eval(cleanup, env, hs, active, depth, Log(Log(c.w, Broke(k, false)), Cleaning(k))))
        else Cleaned(k, r.out, c)
    case IfCurtailed(k, body, cleanup) =>
      var r := Eval(body, env, hs, active, depth, w);
      if r.out.Suspended? || r.out.OutOfGas? then r
      else if r.out.Val? then Result(r.out, Log(r.w, Ended(k, false)))
      else Cleaned(k, r.out, Eval(cleanup, env, hs, active, depth, Log(Log(r.w, Ended(k, true)), Cleaning(k))))
    case Leave(v) =>
      var r := Eval(v, env, hs, active, depth, w);
      if !r.out.Val? then r else Result(Left(r.out.v), r.w)
    case Wait => Result(Suspended, w)
  }

  /** The exit goes on once the cleanup has completed; a cleanup that leaves replaces it. */
  function Cleaned(k: nat, exit: Out, cleanup: Result): (r: Result)
    ensures r.w.gas == cleanup.w.gas
  {
    if cleanup.out.Val? then Result(exit, cleanup.w)
    else if IsTransfer(cleanup.out) then Result(cleanup.out, Log(cleanup.w, Broke(k, true)))
    else cleanup
  }

  /** A new exception instance is signalled. */
  function Fresh(c: Class, hs: seq<Handler>, active: seq<Active>, depth: nat, w: World): (r: Result)
    ensures r.w.gas <= w.gas
    decreases w.gas, 0, |hs| + 1
  {
    Deliver(Exc(c, w.serial), hs, active, depth, w.(serial := w.serial + 1))
  }

  /** What happens when no handler takes an exception: an Error stops, any other answers nil. */
  function Default(exc: Exc): Out {
    if Resumable(exc.cls) then Val(Nil) else Unhandled(exc)
  }

  /** Offer an exception to the handlers in `hs`, the innermost first. A handler runs under those
      outside it; when it passes, they are asked; when it ends, its on:do: answers its value. */
  function Deliver(exc: Exc, hs: seq<Handler>, active: seq<Active>, depth: nat, w: World): (r: Result)
    ensures r.w.gas <= w.gas
    decreases w.gas, 0, |hs|
  {
    if hs == [] then Result(Default(exc), w)
    else
      var h, outer := hs[|hs| - 1], hs[..|hs| - 1];
      if !Matches(h.guard, exc.cls) then Deliver(exc, outer, active, depth, w)
      else if w.gas == 0 then Result(OutOfGas, w)
      else
        var r := Eval(h.body, h.env + [Thrown(exc)], outer, active + [Active(exc, h.level)], depth, w.(gas := w.gas - 1));
        if r.out.Resumed? && r.out.level == h.level then Result(Val(r.out.v), r.w)
        else if r.out.Passed? && r.out.level == h.level then Deliver(exc, outer, active, depth, r.w)
        else if r.out.Val? then Result(Unwind(h.level, r.out.v), r.w)
        else r
  }

  // ----- on:do:on:do: -----

  /** Two guards on one block are two nested on:do:, the second guard the inner one. */
  lemma {:induction false} TwoGuardsNest(body: Exp, g: Guard, h: Exp, g2: Guard, h2: Exp,
                                         env: Env, hs: seq<Handler>, active: seq<Active>, depth: nat, w: World)
    ensures Eval(OnDoOnDo(body, g, h, g2, h2), env, hs, active, depth, w)
         == Eval(OnDo(OnDo(body, g2, h2), g, h), env, hs, active, depth, w)
    decreases w.gas
  {
    hide Deliver, Fresh, LevelOf, Cleaned, Matches;
    var both := hs + [Handler(g, h, env, depth), Handler(g2, h2, env, depth + 1)];
    assert hs + [Handler(g, h, env, depth)] + [Handler(g2, h2, env, depth + 1)] == both;
    var r := Eval(body, env, both, active, depth + 2, w);
    if r.out.Again? && depth <= r.out.level <= depth + 1 && r.w.gas > 0 {
      TwoGuardsNest(body, g, h, g2, h2, env, hs, active, depth, r.w.(gas := r.w.gas - 1));
    }
  }

  // ----- Transfers -----

  predicate LevelsBelow(hs: seq<Handler>, active: seq<Active>, depth: nat) {
    && (forall i :: 0 <= i < |hs| ==> hs[i].level < depth)
    && (forall i :: 0 <= i < |active| ==> active[i].level < depth)
  }

  /** A transfer that leaves an evaluation names an on:do: that was in progress, or a handler that
      was at work, when the evaluation began. */
  predicate Live(out: Out, active: seq<Active>, depth: nat) {
    match out
    case Unwind(l, _) => l < depth
    case Again(l) => l < depth
    case Resumed(l, _) => l < depth && Working(active, l)
    case Passed(l) => l < depth && Working(active, l)
    case _ => true
  }

  predicate Working(active: seq<Active>, l: nat) { exists i :: 0 <= i < |active| && active[i].level == l }

  lemma {:induction false} EscapesAreLive(e: Exp, env: Env, hs: seq<Handler>, active: seq<Active>, depth: nat, w: World)
    requires LevelsBelow(hs, active, depth)
    ensures Live(Eval(e, env, hs, active, depth, w).out, active, depth)
    decreases w.gas, 1, e
  {
    match e
    case Then(a, b) =>
      EscapesAreLive(a, env, hs, active, depth, w);
      var r := Eval(a, env, hs, active, depth, w);
      if r.out.Val? { EscapesAreLive(b, env, hs, active, depth, r.w); }
    case Choose(a, b) =>
      var w' := if w.choices == [] then w else w.(choices := w.choices[1..]);
      EscapesAreLive(a, env, hs, active, depth, w');
      EscapesAreLive(b, env, hs, active, depth, w');
    case Signal(c) => DeliveriesAreLive(Exc(c, w.serial), hs, active, depth, w.(serial := w.serial + 1));
    case Resignal(x) =>
      EscapesAreLive(x, env, hs, active, depth, w);
      var r := Eval(x, env, hs, active, depth, w);
      if r.out.Val? {
        if r.out.v.Thrown? { DeliveriesAreLive(r.out.v.exc, hs, active, depth, r.w); } else { FreshIsLive(hs, active, depth, r.w); }
      }
    case OnDo(_, _, _) => OnDoIsLive(e, env, hs, active, depth, w);
    case OnDoOnDo(body, g, h, g2, h2) =>
      TwoGuardsNest(body, g, h, g2, h2, env, hs, active, depth, w);
      OnDoOnDoIsLive(e, env, hs, active, depth, w);
    case ReturnWith(_, _) => ActionIsLive(e, env, hs, active, depth, w);
    case ResumeWith(_, _) => ActionIsLive(e, env, hs, active, depth, w);
    case Retry(x) =>
      EscapesAreLive(x, env, hs, active, depth, w);
      var r := Eval(x, env, hs, active, depth, w);
      if r.out.Val? { FreshIsLive(hs, active, depth, r.w); }
    case Pass(x) =>
      EscapesAreLive(x, env, hs, active, depth, w);
      var r := Eval(x, env, hs, active, depth, w);
      if r.out.Val? { FreshIsLive(hs, active, depth, r.w); }
    case Ensure(_, _, _) => CleanupIsLive(e, env, hs, active, depth, w);
    case IfCurtailed(_, _, _) => CleanupIsLive(e, env, hs, active, depth, w);
    case Leave(v) => EscapesAreLive(v, env, hs, active, depth, w);
    case _ =>
  }

  lemma {:induction false} CleanupIsLive(e: Exp, env: Env, hs: seq<Handler>, active: seq<Active>, depth: nat, w: World)
    requires (e.Ensure? || e.IfCurtailed?) && LevelsBelow(hs, active, depth)
    ensures Live(Eval(e, env, hs, active, depth, w).out, active, depth)
    decreases w.gas, 1, e, 0
  {
    EscapesAreLive(e.body, env, hs, active, depth, w);
    var r := Eval(e.body, env, hs, active, depth, w);
    var w' := Log(Log(r.w, Ended(e.k, !r.out.Val?)), Cleaning(e.k));
    EscapesAreLive(e.cleanup, env, hs, active, depth, w');
    var c := Eval(e.cleanup, env, hs, active, depth, w');
    EscapesAreLive(e.cleanup, env, hs, active, depth, Log(Log(c.w, Broke(e.k, false)), Cleaning(e.k)));
  }

  lemma {:induction false} ActionIsLive(e: Exp, env: Env, hs: seq<Handler>, active: seq<Active>, depth: nat, w: World)
    requires (e.ReturnWith? || e.ResumeWith?) && LevelsBelow(hs, active, depth)
    ensures Live(Eval(e, env, hs, active, depth, w).out, active, depth)
    decreases w.gas, 1, e, 0
  {
    EscapesAreLive(e.exc, env, hs, active, depth, w);
    var r := Eval(e.exc, env, hs, active, depth, w);
    if r.out.Val? {
      EscapesAreLive(e.value, env, hs, active, depth, r.w);
      FreshIsLive(hs, active, depth, Eval(e.value, env, hs, active, depth, r.w).w);
    }
  }

  lemma {:induction false} OnDoIsLive(e: Exp, env: Env, hs: seq<Handler>, active: seq<Active>, depth: nat, w: World)
    requires e.OnDo? && LevelsBelow(hs, active, depth)
    ensures Live(Eval(e, env, hs, active, depth, w).out, active, depth)
    decreases w.gas, 1, e, 0
  {
    var hs' := hs + [Handler(e.guard, e.handler, env, depth)];
    EscapesAreLive(e.body, env, hs', active, depth + 1, w);
    var r := Eval(e.body, env, hs', active, depth + 1, w);
    if r.out.Again? && r.out.level == depth && r.w.gas > 0 { EscapesAreLive(e, env, hs, active, depth, r.w.(gas := r.w.gas - 1)); }
  }

  lemma {:induction false} OnDoOnDoIsLive(e: Exp, env: Env, hs: seq<Handler>, active: seq<Active>, depth: nat, w: World)
    requires e.OnDoOnDo? && LevelsBelow(hs, active, depth)
    ensures Live(Eval(e, env, hs, active, depth, w).out, active, depth)
    decreases w.gas, 1, e, 0
  {
    var hs' := hs + [Handler(e.guard, e.handler, env, depth), Handler(e.guard2, e.handler2, env, depth + 1)];
    EscapesAreLive(e.body, env, hs', active, depth + 2, w);
    var r := Eval(e.body, env, hs', active, depth + 2, w);
    if r.out.Again? && depth <= r.out.level <= depth + 1 && r.w.gas > 0 {
      EscapesAreLive(e, env, hs, active, depth, r.w.(gas := r.w.gas - 1));
    }
  }

  lemma {:induction false} FreshIsLive(hs: seq<Handler>, active: seq<Active>, depth: nat, w: World)
    requires LevelsBelow(hs, active, depth)
    ensures Live(Fresh(Error, hs, active, depth, w).out, active, depth)
    decreases w.gas, 0, |hs| + 1
  {
    DeliveriesAreLive(Exc(Error, w.serial), hs, active, depth, w.(serial := w.serial + 1));
  }

  lemma {:induction false} DeliveriesAreLive(exc: Exc, hs: seq<Handler>, active: seq<Active>, depth: nat, w: World)
    requires LevelsBelow(hs, active, depth)
    ensures Live(Deliver(exc, hs, active, depth, w).out, active, depth)
    decreases w.gas, 0, |hs|
  {
    if hs != [] {
      var h, outer := hs[|hs| - 1], hs[..|hs| - 1];
      if !Matches(h.guard, exc.cls) {
        DeliveriesAreLive(exc, outer, active, depth, w);
      } else if w.gas > 0 {
        var active' := active + [Active(exc, h.level)];
        EscapesAreLive(h.body, h.env + [Thrown(exc)], outer, active', depth, w.(gas := w.gas - 1));
        var r := Eval(h.body, h.env + [Thrown(exc)], outer, active', depth, w.(gas := w.gas - 1));
        DeliveriesAreLive(exc, outer, active, depth, r.w);
        if r.out.Resumed? || r.out.Passed? {
          var i :| 0 <= i < |active'| && active'[i].level == r.out.level;
          assert i < |active| ==> active[i].level == r.out.level;
        }
      }
    }
  }

  /** Nothing escapes a whole program but its value, an unhandled exception, `^` or a yield. */
  lemma NothingEscapesAProgram(e: Exp, w: World)
    ensures var out := Eval(e, [], [], [], 0, w).out; out.Val? || out.Unhandled? || out.Left? || out.Suspended? || out.OutOfGas?
  {
    EscapesAreLive(e, [], [], [], 0, w);
  }

  // ----- Cleanups -----

  function Count(trace: seq<Event>, ev: Event): nat { multiset(trace)[ev] }

  /** `ensures` and `curtails` are the labels of the ensure: and of the ifCurtailed: parts. */
  predicate Tidy(e: Exp, ensured: set<nat>, curtailed: set<nat>) {
    match e
    case Then(a, b) => Tidy(a, ensured, curtailed) && Tidy(b, ensured, curtailed)
    case Choose(a, b) => Tidy(a, ensured, curtailed) && Tidy(b, ensured, curtailed)
    case Resignal(x) => Tidy(x, ensured, curtailed)
    case OnDo(b, _, h) => Tidy(b, ensured, curtailed) && Tidy(h, ensured, curtailed)
    case OnDoOnDo(b, _, h, _, h2) => Tidy(b, ensured, curtailed) && Tidy(h, ensured, curtailed) && Tidy(h2, ensured, curtailed)
    case ReturnWith(x, v) => Tidy(x, ensured, curtailed) && Tidy(v, ensured, curtailed)
    case ResumeWith(x, v) => Tidy(x, ensured, curtailed) && Tidy(v, ensured, curtailed)
    case Retry(x) => Tidy(x, ensured, curtailed)
    case Pass(x) => Tidy(x, ensured, curtailed)
    case Ensure(k, b, c) => k in ensured && Tidy(b, ensured, curtailed) && Tidy(c, ensured, curtailed)
    case IfCurtailed(k, b, c) => k in curtailed && Tidy(b, ensured, curtailed) && Tidy(c, ensured, curtailed)
    case Leave(v) => Tidy(v, ensured, curtailed)
    case _ => true
  }

  /** The account of all cleanups so far. Every ensure: has started its cleanup once for each time its
      block was left, and once more for each time a transfer left that cleanup though nothing had left
      the block before; every ifCurtailed: once for each time a transfer left its block. */
  ghost predicate CleanedUp(trace: seq<Event>, ensured: set<nat>, curtailed: set<nat>) {
    && (forall k | k in ensured ::
          Count(trace, Cleaning(k)) == Count(trace, Ended(k, true)) + Count(trace, Ended(k, false)) + Count(trace, Broke(k, false)))
    && (forall k | k in curtailed :: Count(trace, Cleaning(k)) == Count(trace, Ended(k, true)))
  }

  predicate TidyHandlers(hs: seq<Handler>, ensured: set<nat>, curtailed: set<nat>) {
    forall i :: 0 <= i < |hs| ==> Tidy(hs[i].body, ensured, curtailed)
  }

  /** The account holds in every program, whatever its cleanups do, at every point where an evaluation
      ends, however it ends. */
  lemma {:induction false} CleanupsAccounted(e: Exp, env: Env, hs: seq<Handler>, active: seq<Active>, depth: nat, w: World,
                                           ensured: set<nat>, curtailed: set<nat>)
    requires ensured !! curtailed && Tidy(e, ensured, curtailed) && TidyHandlers(hs, ensured, curtailed)
    requires CleanedUp(w.trace, ensured, curtailed)
    ensures CleanedUp(Eval(e, env, hs, active, depth, w).w.trace, ensured, curtailed)
    decreases w.gas, 1, e, 1
  {
    hide CleanedUp;
    match e
    case Mark(k) => LogKeeps(w, Seen(k), ensured, curtailed);
    case Then(a, b) =>
      CleanupsAccounted(a, env, hs, active, depth, w, ensured, curtailed);
      CleanupsAccounted(b, env, hs, active, depth, Eval(a, env, hs, active, depth, w).w, ensured, curtailed);
    case Choose(a, b) =>
      var w' := if w.choices == [] then w else w.(choices := w.choices[1..]);
      CleanupsAccounted(a, env, hs, active, depth, w', ensured, curtailed);
      CleanupsAccounted(b, env, hs, active, depth, w', ensured, curtailed);
    case Signal(c) => FreshAccounted(c, hs, active, depth, w, ensured, curtailed);
    case Resignal(x) =>
      CleanupsAccounted(x, env, hs, active, depth, w, ensured, curtailed);
      var r := Eval(x, env, hs, active, depth, w);
      FreshAccounted(Error, hs, active, depth, r.w, ensured, curtailed);
      if r.out.Val? && r.out.v.Thrown? { DeliveryAccounted(r.out.v.exc, hs, active, depth, r.w, ensured, curtailed); }
    case OnDo(body, g, h) =>
      var hs' := hs + [Handler(g, h, env, depth)];
      CleanupsAccounted(body, env, hs', active, depth + 1, w, ensured, curtailed);
      var r := Eval(body, env, hs', active, depth + 1, w);
      if r.w.gas > 0 { CleanupsAccounted(e, env, hs, active, depth, r.w.(gas := r.w.gas - 1), ensured, curtailed); }
    case OnDoOnDo(body, g, h, g2, h2) =>
      var hs' := hs + [Handler(g, h, env, depth), Handler(g2, h2, env, depth + 1)];
      CleanupsAccounted(body, env, hs', active, depth + 2, w, ensured, curtailed);
      var r := Eval(body, env, hs', active, depth + 2, w);
      if r.w.gas > 0 { CleanupsAccounted(e, env, hs, active, depth, r.w.(gas := r.w.gas - 1), ensured, curtailed); }
    case ReturnWith(_, _) => ActionAccounted(e, env, hs, active, depth, w, ensured, curtailed);
    case ResumeWith(_, _) => ActionAccounted(e, env, hs, active, depth, w, ensured, curtailed);
    case Retry(x) =>
      CleanupsAccounted(x, env, hs, active, depth, w, ensured, curtailed);
      FreshAccounted(Error, hs, active, depth, Eval(x, env, hs, active, depth, w).w, ensured, curtailed);
    case Pass(x) =>
      CleanupsAccounted(x, env, hs, active, depth, w, ensured, curtailed);
      FreshAccounted(Error, hs, active, depth, Eval(x, env, hs, active, depth, w).w, ensured, curtailed);
    case Ensure(_, _, _) => OneCleanup(e, env, hs, active, depth, w, ensured, curtailed);
    case IfCurtailed(_, _, _) => OneCleanup(e, env, hs, active, depth, w, ensured, curtailed);
    case Leave(v) => CleanupsAccounted(v, env, hs, active, depth, w, ensured, curtailed);
    case _ =>
  }

  lemma LogKeeps(w: World, ev: Event, ensured: set<nat>, curtailed: set<nat>)
    requires (ev.Seen? || ev == Broke(ev.k, true)) && CleanedUp(w.trace, ensured, curtailed)
    ensures CleanedUp(Log(w, ev).trace, ensured, curtailed)
  {
  }

  lemma {:induction false} ActionAccounted(e: Exp, env: Env, hs: seq<Handler>, active: seq<Active>, depth: nat, w: World,
                                          ensured: set<nat>, curtailed: set<nat>)
    requires e.ReturnWith? || e.ResumeWith?
    requires ensured !! curtailed && Tidy(e, ensured, curtailed) && TidyHandlers(hs, ensured, curtailed)
    requires CleanedUp(w.trace, ensured, curtailed)
    ensures CleanedUp(Eval(e, env, hs, active, depth, w).w.trace, ensured, curtailed)
    decreases w.gas, 1, e, 0
  {
    hide CleanedUp;
    CleanupsAccounted(e.exc, env, hs, active, depth, w, ensured, curtailed);
    var r := Eval(e.exc, env, hs, active, depth, w);
    CleanupsAccounted(e.value, env, hs, active, depth, r.w, ensured, curtailed);
    FreshAccounted(Error, hs, active, depth, Eval(e.value, env, hs, active, depth, r.w).w, ensured, curtailed);
  }

  lemma {:induction false} OneCleanup(e: Exp, env: Env, hs: seq<Handler>, active: seq<Active>, depth: nat, w: World,
                                      ensured: set<nat>, curtailed: set<nat>)
    requires e.Ensure? || e.IfCurtailed?
    requires ensured !! curtailed && Tidy(e, ensured, curtailed) && TidyHandlers(hs, ensured, curtailed)
    requires CleanedUp(w.trace, ensured, curtailed)
    ensures CleanedUp(Eval(e, env, hs, active, depth, w).w.trace, ensured, curtailed)
    decreases w.gas, 1, e, 0
  {
    hide CleanedUp;
    CleanupsAccounted(e.body, env, hs, active, depth, w, ensured, curtailed);
    var r := Eval(e.body, env, hs, active, depth, w);
    var left := !r.out.Val?;
    if e.IfCurtailed? && !left {
      EndOnly(r.w, e.k, ensured, curtailed);
    } else {
      EndThenClean(r.w, e.k, Ended(e.k, left), ensured, curtailed);
      var w2 := Log(Log(r.w, Ended(e.k, left)), Cleaning(e.k));
      CleanupsAccounted(e.cleanup, env, hs, active, depth, w2, ensured, curtailed);
      var c := Eval(e.cleanup, env, hs, active, depth, w2);
      LogKeeps(c.w, Broke(e.k, true), ensured, curtailed);
      if e.Ensure? && !left {
        EndThenClean(c.w, e.k, Broke(e.k, false), ensured, curtailed);
        var w3 := Log(Log(c.w, Broke(e.k, false)), Cleaning(e.k));
        CleanupsAccounted(e.cleanup, env, hs, active, depth, w3, ensured, curtailed);
        LogKeeps(Eval(e.cleanup, env, hs, active, depth, w3).w, Broke(e.k, true), ensured, curtailed);
      }
    }
  }

  /** A cleanup that starts is matched by the event it starts after. */
  lemma EndThenClean(w: World, k: nat, ev: Event, ensured: set<nat>, curtailed: set<nat>)
    requires ensured !! curtailed && CleanedUp(w.trace, ensured, curtailed)
    requires (k in curtailed && ev == Ended(k, true)) || (k in ensured && (ev == Broke(k, false) || ev in {Ended(k, true), Ended(k, false)}))
    ensures CleanedUp(Log(Log(w, ev), Cleaning(k)).trace, ensured, curtailed)
  {
    var w1 := Log(w, ev);
    assert multiset(w1.trace) == multiset(w.trace) + multiset{ev};
    assert multiset(Log(w1, Cleaning(k)).trace) == multiset(w1.trace) + multiset{Cleaning(k)};
  }

  lemma EndOnly(w: World, k: nat, ensured: set<nat>, curtailed: set<nat>)
    requires ensured !! curtailed && CleanedUp(w.trace, ensured, curtailed) && k in curtailed
    ensures CleanedUp(Log(w, Ended(k, false)).trace, ensured, curtailed)
  {
    assert multiset(Log(w, Ended(k, false)).trace) == multiset(w.trace) + multiset{Ended(k, false)};
  }

  lemma {:induction false} FreshAccounted(c: Class, hs: seq<Handler>, active: seq<Active>, depth: nat, w: World,
                                         ensured: set<nat>, curtailed: set<nat>)
    requires ensured !! curtailed && TidyHandlers(hs, ensured, curtailed) && CleanedUp(w.trace, ensured, curtailed)
    ensures CleanedUp(Fresh(c, hs, active, depth, w).w.trace, ensured, curtailed)
    decreases w.gas, 0, |hs| + 1
  {
    DeliveryAccounted(Exc(c, w.serial), hs, active, depth, w.(serial := w.serial + 1), ensured, curtailed);
  }

  lemma {:induction false} DeliveryAccounted(exc: Exc, hs: seq<Handler>, active: seq<Active>, depth: nat, w: World,
                                           ensured: set<nat>, curtailed: set<nat>)
    requires ensured !! curtailed && TidyHandlers(hs, ensured, curtailed) && CleanedUp(w.trace, ensured, curtailed)
    ensures CleanedUp(Deliver(exc, hs, active, depth, w).w.trace, ensured, curtailed)
    decreases w.gas, 0, |hs|
  {
    hide CleanedUp;
    if hs != [] {
      var h, outer := hs[|hs| - 1], hs[..|hs| - 1];
      if !Matches(h.guard, exc.cls) {
        DeliveryAccounted(exc, outer, active, depth, w, ensured, curtailed);
      } else if w.gas > 0 {
        var active' := active + [Active(exc, h.level)];
        CleanupsAccounted(h.body, h.env + [Thrown(exc)], outer, active', depth, w.(gas := w.gas - 1), ensured, curtailed);
        var r := Eval(h.body, h.env + [Thrown(exc)], outer, active', depth, w.(gas := w.gas - 1));
        DeliveryAccounted(exc, outer, active, depth, r.w, ensured, curtailed);
      }
    }
  }

  /** The world a cleanup starts in. */
  function CleanupWorld(k: nat, r: Result): World { Log(Log(r.w, Ended(k, !r.out.Val?)), Cleaning(k)) }

  /** The transfer under way still reaches its target: a cleanup that completes changes no outcome, and
      a suspended block starts none. */
  lemma CleanupKeepsOutcome(k: nat, body: Exp, cleanup: Exp, env: Env, hs: seq<Handler>, active: seq<Active>, depth: nat, w: World)
    ensures var r := Eval(body, env, hs, active, depth, w);
      var c := Eval(cleanup, env, hs, active, depth, CleanupWorld(k, r));
      && (c.out.Val? || r.out.Suspended? || r.out.OutOfGas? ==> Eval(Ensure(k, body, cleanup), env, hs, active, depth, w).out == r.out)
      && (c.out.Val? || r.out.Val? || r.out.Suspended? || r.out.OutOfGas? ==>
            Eval(IfCurtailed(k, body, cleanup), env, hs, active, depth, w).out == r.out)
  {
  }

  /** In a whole program each ensure: runs its cleanup exactly once for each time its block is left,
      exactly when no transfer ever leaves that cleanup after the block ended with a value; each
      ifCurtailed: does so for each transfer that leaves its block, whatever its cleanup does. */
  lemma CleanupsRunOnceExactly(e: Exp, w: World, ensured: set<nat>, curtailed: set<nat>)
    requires ensured !! curtailed && Tidy(e, ensured, curtailed) && w.trace == []
    ensures var t := Eval(e, [], [], [], 0, w).w.trace;
      && (forall k | k in ensured ::
            Count(t, Cleaning(k)) == Count(t, Ended(k, true)) + Count(t, Ended(k, false)) <==> Broke(k, false) !in t)
      && (forall k | k in curtailed :: Count(t, Cleaning(k)) == Count(t, Ended(k, true)))
  {
    hide Eval, Tidy;
    assert CleanedUp(w.trace, ensured, curtailed);
    CleanupsAccounted(e, [], [], [], 0, w, ensured, curtailed);
    var t := Eval(e, [], [], [], 0, w).w.trace;
    forall k ensures Count(t, Broke(k, false)) == 0 <==> Broke(k, false) !in t { assert Broke(k, false) in multiset(t) <==> Broke(k, false) in t; }
  }

  /** It can fail: [1] ensure: [Error signal] runs its cleanup twice. */
  lemma BrokenCleanupRunsTwice(w: World)
    requires w.trace == []
    ensures Eval(Ensure(7, Lit(1), Signal(Error)), [], [], [], 0, w).w.trace
         == [Ended(7, false), Cleaning(7), Broke(7, false), Cleaning(7), Broke(7, true)]
  {
    assert Eval(Lit(1), [], [], [], 0, w) == Result(Val(Int(1)), w);
    var w2 := Log(Log(w, Ended(7, false)), Cleaning(7));
    UnhandledError(w2);
    var c := Eval(Signal(Error), [], [], [], 0, w2);
    UnhandledError(Log(Log(c.w, Broke(7, false)), Cleaning(7)));
  }

  lemma UnhandledError(w: World)
    ensures Eval(Signal(Error), [], [], [], 0, w) == Result(Unhandled(Exc(Error, w.serial)), w.(serial := w.serial + 1))
  {
    assert Deliver(Exc(Error, w.serial), [], [], 0, w.(serial := w.serial + 1)).out == Unhandled(Exc(Error, w.serial));
  }

  /** Code logs nothing about an ensure: or ifCurtailed: it does not contain. */
  lemma {:induction false} OthersUnlogged(e: Exp, env: Env, hs: seq<Handler>, active: seq<Active>, depth: nat, w: World,
                                          labels: set<nat>, ev: Event)
    requires !ev.Seen? && ev.k !in labels && Tidy(e, labels, labels) && TidyHandlers(hs, labels, labels)
    ensures Count(Eval(e, env, hs, active, depth, w).w.trace, ev) == Count(w.trace, ev)
    decreases w.gas, 1, e
  {
    hide Count;
    match e
    case Mark(k) => Unlogged(w, Seen(k), ev);
    case Then(a, b) =>
      OthersUnlogged(a, env, hs, active, depth, w, labels, ev);
      OthersUnlogged(b, env, hs, active, depth, Eval(a, env, hs, active, depth, w).w, labels, ev);
    case Choose(a, b) =>
      var w' := if w.choices == [] then w else w.(choices := w.choices[1..]);
      OthersUnlogged(a, env, hs, active, depth, w', labels, ev);
      OthersUnlogged(b, env, hs, active, depth, w', labels, ev);
    case Signal(c) => OthersUndelivered(Exc(c, w.serial), hs, active, depth, w.(serial := w.serial + 1), labels, ev);
    case Resignal(x) =>
      OthersUnlogged(x, env, hs, active, depth, w, labels, ev);
      var r := Eval(x, env, hs, active, depth, w);
      FreshUnlogged(hs, active, depth, r.w, labels, ev);
      if r.out.Val? && r.out.v.Thrown? { OthersUndelivered(r.out.v.exc, hs, active, depth, r.w, labels, ev); }
    case OnDo(body, g, h) =>
      var hs' := hs + [Handler(g, h, env, depth)];
      OthersUnlogged(body, env, hs', active, depth + 1, w, labels, ev);
      var r := Eval(body, env, hs', active, depth + 1, w);
      if r.w.gas > 0 { OthersUnlogged(e, env, hs, active, depth, r.w.(gas := r.w.gas - 1), labels, ev); }
    case OnDoOnDo(body, g, h, g2, h2) =>
      var hs' := hs + [Handler(g, h, env, depth), Handler(g2, h2, env, depth + 1)];
      OthersUnlogged(body, env, hs', active, depth + 2, w, labels, ev);
      var r := Eval(body, env, hs', active, depth + 2, w);
      if r.w.gas > 0 { OthersUnlogged(e, env, hs, active, depth, r.w.(gas := r.w.gas - 1), labels, ev); }
    case ReturnWith(x, v) => ActionUnlogged(e, env, hs, active, depth, w, labels, ev);
    case ResumeWith(x, v) => ActionUnlogged(e, env, hs, active, depth, w, labels, ev);
    case Retry(x) =>
      OthersUnlogged(x, env, hs, active, depth, w, labels, ev);
      FreshUnlogged(hs, active, depth, Eval(x, env, hs, active, depth, w).w, labels, ev);
    case Pass(x) =>
      OthersUnlogged(x, env, hs, active, depth, w, labels, ev);
      FreshUnlogged(hs, active, depth, Eval(x, env, hs, active, depth, w).w, labels, ev);
    case Ensure(k, _, _) => CleanupUnlogged(e, env, hs, active, depth, w, labels, ev);
    case IfCurtailed(k, _, _) => CleanupUnlogged(e, env, hs, active, depth, w, labels, ev);
    case Leave(v) => OthersUnlogged(v, env, hs, active, depth, w, labels, ev);
    case _ =>
  }

  lemma Unlogged(w: World, ev': Event, ev: Event)
    requires ev' != ev
    ensures Count(Log(w, ev').trace, ev) == Count(w.trace, ev)
  {
  }

  lemma {:induction false} ActionUnlogged(e: Exp, env: Env, hs: seq<Handler>, active: seq<Active>, depth: nat, w: World,
                                          labels: set<nat>, ev: Event)
    requires e.ReturnWith? || e.ResumeWith?
    requires !ev.Seen? && ev.k !in labels && Tidy(e, labels, labels) && TidyHandlers(hs, labels, labels)
    ensures Count(Eval(e, env, hs, active, depth, w).w.trace, ev) == Count(w.trace, ev)
    decreases w.gas, 1, e, 0
  {
    hide Count;
    OthersUnlogged(e.exc, env, hs, active, depth, w, labels, ev);
    var r := Eval(e.exc, env, hs, active, depth, w);
    OthersUnlogged(e.value, env, hs, active, depth, r.w, labels, ev);
    FreshUnlogged(hs, active, depth, Eval(e.value, env, hs, active, depth, r.w).w, labels, ev);
  }

  lemma {:induction false} CleanupUnlogged(e: Exp, env: Env, hs: seq<Handler>, active: seq<Active>, depth: nat, w: World,
                                           labels: set<nat>, ev: Event)
    requires e.Ensure? || e.IfCurtailed?
    requires !ev.Seen? && ev.k !in labels && Tidy(e, labels, labels) && TidyHandlers(hs, labels, labels)
    ensures Count(Eval(e, env, hs, active, depth, w).w.trace, ev) == Count(w.trace, ev)
    decreases w.gas, 1, e, 0
  {
    hide Count;
    OthersUnlogged(e.body, env, hs, active, depth, w, labels, ev);
    var r := Eval(e.body, env, hs, active, depth, w);
    var w1 := Log(r.w, Ended(e.k, !r.out.Val?));
    var w2 := Log(w1, Cleaning(e.k));
    Unlogged(r.w, Ended(e.k, !r.out.Val?), ev);
    Unlogged(w1, Cleaning(e.k), ev);
    OthersUnlogged(e.cleanup, env, hs, active, depth, w2, labels, ev);
    var c := Eval(e.cleanup, env, hs, active, depth, w2);
    Unlogged(c.w, Broke(e.k, true), ev);
    var w3 := Log(c.w, Broke(e.k, false));
    Unlogged(c.w, Broke(e.k, false), ev);
    Unlogged(w3, Cleaning(e.k), ev);
    OthersUnlogged(e.cleanup, env, hs, active, depth, Log(w3, Cleaning(e.k)), labels, ev);
    Unlogged(Eval(e.cleanup, env, hs, active, depth, Log(w3, Cleaning(e.k))).w, Broke(e.k, true), ev);
  }

  lemma {:induction false} FreshUnlogged(hs: seq<Handler>, active: seq<Active>, depth: nat, w: World, labels: set<nat>, ev: Event)
    requires !ev.Seen? && ev.k !in labels && TidyHandlers(hs, labels, labels)
    ensures Count(Fresh(Error, hs, active, depth, w).w.trace, ev) == Count(w.trace, ev)
    decreases w.gas, 0, |hs| + 1
  {
    OthersUndelivered(Exc(Error, w.serial), hs, active, depth, w.(serial := w.serial + 1), labels, ev);
  }

  lemma {:induction false} OthersUndelivered(exc: Exc, hs: seq<Handler>, active: seq<Active>, depth: nat, w: World,
                                             labels: set<nat>, ev: Event)
    requires !ev.Seen? && ev.k !in labels && TidyHandlers(hs, labels, labels)
    ensures Count(Deliver(exc, hs, active, depth, w).w.trace, ev) == Count(w.trace, ev)
    decreases w.gas, 0, |hs|
  {
    hide Count;
    if hs != [] {
      var h, outer := hs[|hs| - 1], hs[..|hs| - 1];
      if !Matches(h.guard, exc.cls) {
        OthersUndelivered(exc, outer, active, depth, w, labels, ev);
      } else if w.gas > 0 {
        var active' := active + [Active(exc, h.level)];
        OthersUnlogged(h.body, h.env + [Thrown(exc)], outer, active', depth, w.(gas := w.gas - 1), labels, ev);
        var r := Eval(h.body, h.env + [Thrown(exc)], outer, active', depth, w.(gas := w.gas - 1));
        OthersUndelivered(exc, outer, active, depth, r.w, labels, ev);
      }
    }
  }

  /** How often one ensure: starts its cleanup. A cleanup that itself leaves by a transfer, after
      the block ended with a value, is started a second time; only then is it not exactly once. */
  lemma EnsureRunsCleanup(k: nat, body: Exp, cleanup: Exp, env: Env, hs: seq<Handler>, active: seq<Active>, depth: nat, w: World,
                          labels: set<nat>)
    requires k !in labels && Tidy(body, labels, labels) && Tidy(cleanup, labels, labels) && TidyHandlers(hs, labels, labels)
    ensures var r := Eval(body, env, hs, active, depth, w);
      var first := Eval(cleanup, env, hs, active, depth, CleanupWorld(k, r));
      var all := Eval(Ensure(k, body, cleanup), env, hs, active, depth, w);
      Count(all.w.trace, Cleaning(k)) - Count(w.trace, Cleaning(k))
      == if r.out.Suspended? || r.out.OutOfGas? then 0 else if r.out.Val? && IsTransfer(first.out) then 2 else 1
  {
    hide Count;
    var ev := Cleaning(k);
    OthersUnlogged(body, env, hs, active, depth, w, labels, ev);
    var r := Eval(body, env, hs, active, depth, w);
    FirstRun(k, cleanup, env, hs, active, depth, r, labels);
    var c := Eval(cleanup, env, hs, active, depth, CleanupWorld(k, r));
    Unlogged(c.w, Broke(k, true), ev);
    var w3 := Log(c.w, Broke(k, false));
    Unlogged(c.w, Broke(k, false), ev);
    Logged(w3, ev);
    OthersUnlogged(cleanup, env, hs, active, depth, Log(w3, ev), labels, ev);
    Unlogged(Eval(cleanup, env, hs, active, depth, Log(w3, ev)).w, Broke(k, true), ev);
  }

  lemma FirstRun(k: nat, cleanup: Exp, env: Env, hs: seq<Handler>, active: seq<Active>, depth: nat, r: Result, labels: set<nat>)
    requires k !in labels && Tidy(cleanup, labels, labels) && TidyHandlers(hs, labels, labels)
    ensures Count(Eval(cleanup, env, hs, active, depth, CleanupWorld(k, r)).w.trace, Cleaning(k)) == Count(r.w.trace, Cleaning(k)) + 1
  {
    hide Count;
    var w1 := Log(r.w, Ended(k, !r.out.Val?));
    Unlogged(r.w, Ended(k, !r.out.Val?), Cleaning(k));
    Logged(w1, Cleaning(k));
    OthersUnlogged(cleanup, env, hs, active, depth, Log(w1, Cleaning(k)), labels, Cleaning(k));
  }

  lemma IfCurtailedSteps(k: nat, body: Exp, cleanup: Exp, env: Env, hs: seq<Handler>, active: seq<Active>, depth: nat, w: World)
    ensures var r := Eval(body, env, hs, active, depth, w);
      Eval(IfCurtailed(k, body, cleanup), env, hs, active, depth, w)
      == if r.out.Suspended? || r.out.OutOfGas? then r
         else if r.out.Val? then Result(r.out, Log(r.w, Ended(k, false)))
         else Cleaned(k, r.out, Eval(cleanup, env, hs, active, depth, CleanupWorld(k, r)))
  {
  }

  /** One ifCurtailed: starts its cleanup once when a transfer leaves its block, else never. */
  lemma IfCurtailedRunsCleanup(k: nat, body: Exp, cleanup: Exp, env: Env, hs: seq<Handler>, active: seq<Active>, depth: nat, w: World,
                               labels: set<nat>)
    requires k !in labels && Tidy(body, labels, labels) && Tidy(cleanup, labels, labels) && TidyHandlers(hs, labels, labels)
    ensures var r := Eval(body, env, hs, active, depth, w);
      var all := Eval(IfCurtailed(k, body, cleanup), env, hs, active, depth, w);
      Count(all.w.trace, Cleaning(k)) - Count(w.trace, Cleaning(k)) == if IsTransfer(r.out) then 1 else 0
  {
    IfCurtailedSteps(k, body, cleanup, env, hs, active, depth, w);
    hide Count, Eval, Tidy;
    OthersUnlogged(body, env, hs, active, depth, w, labels, Cleaning(k));
    var r := Eval(body, env, hs, active, depth, w);
    Unlogged(r.w, Ended(k, false), Cleaning(k));
    FirstRun(k, cleanup, env, hs, active, depth, r, labels);
    Unlogged(Eval(cleanup, env, hs, active, depth, CleanupWorld(k, r)).w, Broke(k, true), Cleaning(k));
  }

  lemma Logged(w: World, ev: Event)
    ensures Count(Log(w, ev).trace, ev) == Count(w.trace, ev) + 1
  {
  }
}
