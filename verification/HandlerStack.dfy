/** The runtime's exception machinery: a handler stack whose entries have ids and enabled flags,
    a stack of the signals being handled, and transfers that name their target by id. Every
    evaluation does what the program means and leaves both stacks as it found them. */
module HandlerStack {
  import opened Protected

  datatype Entry = Entry(guard: Guard, body: Exp, env: Env, id: nat, enabled: bool)

  datatype ActiveSignal = ActiveSignal(exc: Exc, id: nat)

  /** Ids grow along the stack; 0 is no id. */
  predicate Ordered(s: seq<Entry>) {
    && (forall i :: 0 <= i < |s| ==> s[i].id > 0)
    && (forall i, j :: 0 <= i < j < |s| ==> s[i].id < s[j].id)
  }

  /** The handlers that may be asked, each with its place on the stack. */
  function Enabled(s: seq<Entry>): seq<Handler> {
    if s == [] then []
    else
      var e := s[|s| - 1];
      Enabled(s[..|s| - 1]) + if e.enabled then [Handler(e.guard, e.body, e.env, |s| - 1)] else []
  }

  function PlaceOf(s: seq<Entry>, id: nat): (i: int)
    ensures -1 <= i < |s| && (i >= 0 ==> s[i].id == id)
    ensures i < 0 ==> forall k :: 0 <= k < |s| ==> s[k].id != id
  {
    if s == [] then -1 else if s[|s| - 1].id == id then |s| - 1 else PlaceOf(s[..|s| - 1], id)
  }

  predicate Placed(a: ActiveSignal, s: seq<Entry>) { PlaceOf(s, a.id) >= 0 }

  function LevelAt(a: ActiveSignal, s: seq<Entry>): Active
    requires Placed(a, s)
  {
    Active(a.exc, PlaceOf(s, a.id))
  }

  /** The signals being handled, each with the place of its handler. */
  function Levels(active: seq<ActiveSignal>, s: seq<Entry>): (r: seq<Active>)
    requires forall i :: 0 <= i < |active| ==> Placed(active[i], s)
    ensures |r| == |active|
    ensures forall i :: 0 <= i < |r| ==> r[i] == LevelAt(active[i], s)
  {
    seq(|active|, i requires 0 <= i < |active| => LevelAt(active[i], s))
  }

  /** A transfer that names its target by id and one that names it by place. */
  predicate SameOut(o: Out, p: Out, s: seq<Entry>) {
    match p
    case Unwind(l, v) => o.Unwind? && o.v == v && l < |s| && s[l].id == o.level
    case Again(l) => o.Again? && l < |s| && s[l].id == o.level
    case Resumed(l, v) => o.Resumed? && o.v == v && l < |s| && s[l].id == o.level
    case Passed(l) => o.Passed? && l < |s| && s[l].id == o.level
    case _ => o == p
  }

  lemma PlaceIs(s: seq<Entry>, i: nat)
    requires Ordered(s) && i < |s|
    ensures PlaceOf(s, s[i].id) == i
  {
    var p := PlaceOf(s, s[i].id);
    if p < i {} else if i < p {}
  }

  /** Entries with the same ids keep every place. */
  lemma SamePlaces(s: seq<Entry>, t: seq<Entry>, id: nat)
    requires Ordered(s) && Ordered(t) && |s| <= |t| && (forall i :: 0 <= i < |s| ==> s[i].id == t[i].id)
    requires PlaceOf(s, id) >= 0
    ensures PlaceOf(t, id) == PlaceOf(s, id)
  {
    PlaceIs(t, PlaceOf(s, id));
  }

  lemma SameLevels(active: seq<ActiveSignal>, s: seq<Entry>, t: seq<Entry>)
    requires Ordered(s) && Ordered(t) && |s| <= |t| && (forall i :: 0 <= i < |s| ==> s[i].id == t[i].id)
    requires forall i :: 0 <= i < |active| ==> Placed(active[i], s)
    ensures forall i :: 0 <= i < |active| ==> Placed(active[i], t)
    ensures Levels(active, t) == Levels(active, s)
  {
    forall i | 0 <= i < |active| ensures PlaceOf(t, active[i].id) == PlaceOf(s, active[i].id) {
      assert Placed(active[i], s);
      SamePlaces(s, t, active[i].id);
    }
  }

  function Off(s: seq<Entry>, k: nat): (r: seq<Entry>)
    requires k <= |s|
    ensures |r| == |s|
    ensures forall i :: 0 <= i < |s| ==> r[i] == if i < k then s[i] else s[i].(enabled := false)
  {
    seq(|s|, i requires 0 <= i < |s| => if i < k then s[i] else s[i].(enabled := false))
  }

  /** With a handler and everything inside it switched off, those outside it are left. */
  lemma {:induction false} OffLeavesOuter(s: seq<Entry>, k: nat)
    requires k <= |s|
    ensures Enabled(Off(s, k)) == Enabled(s[..k])
    decreases |s|
  {
    if k == |s| {
      assert Off(s, k) == s && s[..k] == s;
    } else {
      assert Off(s, k)[..|s| - 1] == Off(s[..|s| - 1], k);
      assert s[..|s| - 1][..k] == s[..k];
      OffLeavesOuter(s[..|s| - 1], k);
    }
  }

  predicate Takes(e: Entry, c: Class) { e.enabled && Matches(e.guard, c) }

  /** Handlers that do not take the exception might as well not be there. */
  lemma {:induction false} SkipToMatch(exc: Exc, s: seq<Entry>, k: nat, active: seq<Active>, depth: nat, w: World)
    requires k <= |s| && forall i :: k <= i < |s| ==> !Takes(s[i], exc.cls)
    ensures Deliver(exc, Enabled(s), active, depth, w) == Deliver(exc, Enabled(s[..k]), active, depth, w)
    decreases |s|
  {
    if k == |s| {
      assert s[..k] == s;
    } else {
      var t, e := s[..|s| - 1], s[|s| - 1];
      assert t[..k] == s[..k];
      SkipToMatch(exc, t, k, active, depth, w);
      if e.enabled {
        var h := Handler(e.guard, e.body, e.env, |s| - 1);
        assert Enabled(s) == Enabled(t) + [h];
        assert (Enabled(t) + [h])[..|Enabled(t)|] == Enabled(t);
      } else {
        assert Enabled(s) == Enabled(t);
      }
    }
  }

  class Thread {
    var handlers: seq<Entry>
    var active: seq<ActiveSignal>
    var nextId: nat
    var world: World

    ghost predicate Valid()
      reads this
    {
      && Ordered(handlers) && nextId > 0
      && (forall i :: 0 <= i < |handlers| ==> handlers[i].id < nextId)
      && (forall i :: 0 <= i < |active| ==> Placed(active[i], handlers))
    }

    constructor (w: World)
      ensures Valid() && handlers == [] && active == [] && world == w
    {
      handlers, active, nextId, world := [], [], 1, w;
    }

    method Push(guard: Guard, body: Exp, env: Env) returns (id: nat)
      requires Valid()
      modifies this
      ensures Valid() && active == old(active) && world == old(world)
      ensures id == old(nextId) < nextId && handlers == old(handlers) + [Entry(guard, body, env, id, true)]
      ensures Levels(active, handlers) == Levels(old(active), old(handlers))
    {
      id := nextId;
      nextId := nextId + 1;
      ghost var s := handlers;
      handlers := handlers + [Entry(guard, body, env, id, true)];
      SameLevels(active, s, handlers);
    }

    /** Removes the entry with this id, wherever it stands. */
    method Pop(id: nat)
      requires Ordered(handlers)
      modifies `handlers
      ensures var k := PlaceOf(old(handlers), id);
        handlers == if k < 0 then old(handlers) else old(handlers)[..k] + old(handlers)[k + 1..]
    {
      var i := |handlers|;
      while i > 0
        invariant 0 <= i <= |handlers| && handlers == old(handlers)
        invariant forall k :: i <= k < |handlers| ==> handlers[k].id != id
      {
        i := i - 1;
        if handlers[i].id == id {
          PlaceIs(handlers, i);
          handlers := handlers[..i] + handlers[i + 1..];
          return;
        }
      }
    }

    /** The newest enabled entry that takes the class, outside `searchBelow` when that is given. */
    method FindMatch(c: Class, searchBelow: nat) returns (found: int)
      requires Valid()
      ensures var start := if searchBelow == 0 || PlaceOf(handlers, searchBelow) < 0 then |handlers| else PlaceOf(handlers, searchBelow);
        && -1 <= found < start
        && (found >= 0 ==> Takes(handlers[found], c))
        && (forall k :: found < k < start ==> !Takes(handlers[k], c))
    {
      var start := |handlers|;
      if searchBelow != 0 {
        var j := |handlers|;
        while j > 0
          invariant 0 <= j <= |handlers| && start == |handlers|
          invariant forall k :: j <= k < |handlers| ==> handlers[k].id != searchBelow
        {
          j := j - 1;
          if handlers[j].id == searchBelow {
            PlaceIs(handlers, j);
            start := j;
            break;
          }
        }
      }
      found := start - 1;
      while found >= 0
        invariant -1 <= found < start <= |handlers|
        invariant forall k :: found < k < start ==> !Takes(handlers[k], c)
        decreases found
      {
        if handlers[found].enabled && Matches(handlers[found].guard, c) { return; }
        found := found - 1;
      }
    }

    /** Switches off the entry at work and every one inside it; answers the ids it switched. */
    method DisableFrom(id: nat) returns (flipped: seq<nat>)
      requires Valid() && PlaceOf(handlers, id) >= 0
      modifies `handlers
      ensures Valid() && handlers == Off(old(handlers), PlaceOf(old(handlers), id))
      ensures forall k :: 0 <= k < |handlers| ==>
        (old(handlers)[k].id in flipped <==> k >= PlaceOf(old(handlers), id) && old(handlers)[k].enabled)
      ensures Levels(active, handlers) == Levels(active, old(handlers))
    {
      flipped := [];
      var found := false;
      ghost var s, p := handlers, PlaceOf(handlers, id);
      var i := 0;
      while i < |handlers|
        invariant i <= |handlers| == |s| && Ordered(s) && p == PlaceOf(s, id) >= 0
        invariant found == (p < i)
        invariant forall k :: 0 <= k < |s| ==> handlers[k] == if p <= k < i then s[k].(enabled := false) else s[k]
        invariant forall k :: 0 <= k < |s| ==> (s[k].id in flipped <==> p <= k < i && s[k].enabled)
      {
        if handlers[i].id == id { PlaceIs(s, i); found := true; }
        if found && handlers[i].enabled {
          flipped := flipped + [handlers[i].id];
          handlers := handlers[i := handlers[i].(enabled := false)];
        }
        i := i + 1;
      }
      assert handlers == Off(s, p);
      SameLevels(active, s, handlers);
    }

    /** Switches the listed entries on again, those that are still there. */
    method Restore(ids: seq<nat>)
      requires Ordered(handlers)
      modifies `handlers
      ensures |handlers| == |old(handlers)|
      ensures forall k :: 0 <= k < |handlers| ==>
        handlers[k] == if old(handlers)[k].id in ids then old(handlers)[k].(enabled := true) else old(handlers)[k]
    {
      ghost var s := handlers;
      for n := 0 to |ids|
        invariant |handlers| == |s| && Ordered(s)
        invariant forall k :: 0 <= k < |s| ==> handlers[k] == if s[k].id in ids[..n] then s[k].(enabled := true) else s[k]
      {
        var i := |handlers|;
        ghost var before := handlers;
        while i > 0
          invariant 0 <= i <= |handlers| && handlers == before
          invariant forall k :: i <= k < |s| ==> s[k].id != ids[n]
        {
          i := i - 1;
          if handlers[i].id == ids[n] {
            handlers := handlers[i := handlers[i].(enabled := true)];
            break;
          }
        }
        assert ids[..n + 1] == ids[..n] + [ids[n]];
        forall k | 0 <= k < |s| && s[k].id == ids[n] ensures k == i {
          if k < i {} else if i < k {}
        }
      }
      assert ids[..|ids|] == ids;
    }

    // ----- Evaluation -----

    /** The state an evaluation may count on finding again. */
    twostate predicate Balanced()
      reads this
    {
      Valid() && handlers == old(handlers) && active == old(active)
    }

    /** `signal`: offers an exception to the handlers, newest first, and runs the one that takes it
        in place; a pass asks on, strictly outside it. */
    method SignalInstance(exc: Exc) returns (o: Out)
      requires Valid()
      modifies this
      ensures Balanced()
      ensures var r := Deliver(exc, Enabled(handlers), Levels(active, handlers), |handlers|, old(world));
        world == r.w && SameOut(o, r.out, handlers)
      decreases world.gas, 0, 1
    {
      hide Eval, Deliver, Enabled, PlaceOf, Ordered, Matches, Levels;
      ghost var s, sig, w0 := handlers, active, world;
      ghost var levels := Levels(active, handlers);
      var searchBelow := 0;
      ghost var start := |s|;
      assert s[..start] == s;
      while true
        invariant Valid() && handlers == s && active == sig && levels == Levels(sig, s)
        invariant start <= |s| && world.gas <= w0.gas
        invariant if searchBelow == 0 then start == |s| else PlaceOf(s, searchBelow) == start
        invariant Deliver(exc, Enabled(s), levels, |s|, w0) == Deliver(exc, Enabled(s[..start]), levels, |s|, world)
        decreases start
      {
        var k := FindMatch(exc.cls, searchBelow);
        SkipTo(exc, s, start, k + 1, levels, world);
        if k < 0 {
          NobodyTakes(exc, s, levels, world);
          return Default(exc);
        }
        DeliverTo(exc, s, k, levels, world);
        var entry := handlers[k];
        if world.gas == 0 { return OutOfGas; }
        o := RunHandler(exc, k);
        PlaceUnique(s, k);
        match o {
          case Resumed(id, v) => if id == entry.id { return Val(v); } else { return; }
          case Passed(id) =>
            if id != entry.id { return; }
            searchBelow := id;
            start := k;
          case Val(v) => return Unwind(entry.id, v);
          case _ => return;
        }
      }
    }

    /** Runs the handler at place `k`, with it and everything inside it switched off meanwhile. */
    method RunHandler(exc: Exc, k: nat) returns (o: Out)
      requires Valid() && k < |handlers| && handlers[k].enabled && world.gas > 0
      modifies this
      ensures Balanced()
      ensures var e := handlers[k];
        var r := Eval(e.body, e.env + [Thrown(exc)], Enabled(handlers[..k]), Levels(active, handlers) + [Active(exc, k)],
                      |handlers|, old(world).(gas := old(world).gas - 1));
        world == r.w && SameOut(o, r.out, handlers)
      decreases world.gas, 0, 0
    {
      hide Eval, Enabled, PlaceOf, Matches;
      ghost var s, sig := handlers, active;
      var entry := handlers[k];
      PlaceIs(s, k);
      var flipped := DisableFrom(entry.id);
      OffLeavesOuter(s, k);
      active := active + [ActiveSignal(exc, entry.id)];
      OneMoreActive(sig, handlers, exc, k);
      world := world.(gas := world.gas - 1);
      o := Evaluate(entry.body, entry.env + [Thrown(exc)]);
      active := active[..|active| - 1];
      Restore(flipped);
      assert handlers == s;
    }

    /** A new instance of a class is signalled. */
    method SignalNew(c: Class) returns (o: Out)
      requires Valid()
      modifies this
      ensures Balanced()
      ensures var r := Fresh(c, Enabled(handlers), Levels(active, handlers), |handlers|, old(world));
        world == r.w && SameOut(o, r.out, handlers)
      decreases world.gas, 0, 2
    {
      hide Deliver, Eval, Enabled, PlaceOf, Ordered, Levels;
      var exc := Exc(c, world.serial);
      world := world.(serial := world.serial + 1);
      o := SignalInstance(exc);
    }

    /** The id of the handler at work on an exception, or 0. */
    method ActiveIdOf(v: Value) returns (id: nat)
      requires Valid()
      ensures var l := LevelOf(Levels(active, handlers), v);
        if l < 0 then id == 0 else l < |handlers| && id == handlers[l].id != 0
    {
      var i := |active|;
      LevelFound(Levels(active, handlers), i, v);
      while i > 0
        invariant 0 <= i <= |active|
        invariant LevelOf(Levels(active, handlers), v) == LevelOf(Levels(active, handlers)[..i], v)
      {
        LevelFound(Levels(active, handlers), i, v);
        i := i - 1;
        if v.Thrown? && active[i].exc == v.exc {
          assert Placed(active[i], handlers);
          return active[i].id;
        }
      }
      return 0;
    }

    method Evaluate(e: Exp, env: Env) returns (o: Out)
      requires Valid()
      modifies this
      ensures Balanced()
      ensures var r := Eval(e, env, Enabled(handlers), Levels(active, handlers), |handlers|, old(world));
        world == r.w && SameOut(o, r.out, handlers)
      decreases world.gas, 1, e, 1
    {
      hide Enabled, PlaceOf, Ordered, Levels, Deliver;
      match e
      case Lit(n) => o := Val(Int(n));
      case Var(x) => o := Val(Lookup(env, x));
      case Mark(k) => world := Log(world, Seen(k)); o := Val(Nil);
      case Then(a, b) =>
        o := Evaluate(a, env);
        if o.Val? { o := Evaluate(b, env); }
      case Choose(a, b) =>
        var first := world.choices != [] && world.choices[0];
        world := if world.choices == [] then world else world.(choices := world.choices[1..]);
        if first { o := Evaluate(a, env); } else { o := Evaluate(b, env); }
      case Signal(c) => o := SignalNew(c);
      case Resignal(x) =>
        o := Evaluate(x, env);
        if !o.Val? { return; }
        if o.v.Thrown? { o := SignalInstance(o.v.exc); } else { o := SignalNew(Error); }
      case OnDo(_, _, _) => o := RunProtectedSingle(e, env);
      case OnDoOnDo(_, _, _, _, _) => o := RunProtected(e, env);
      case ReturnWith(_, _) => o := ActWith(e, env);
      case ResumeWith(_, _) => o := ActWith(e, env);
      case Retry(_) => o := Act(e, env);
      case Pass(_) => o := Act(e, env);
      case Ensure(_, _, _) => o := RunEnsure(e, env);
      case IfCurtailed(_, _, _) => o := RunIfCurtailed(e, env);
      case Leave(v) =>
        o := Evaluate(v, env);
        if o.Val? { o := Left(o.v); }
      case Wait => o := Suspended;
    }

    /** return: and resume:. Sent to an exception that no handler is at work on, they are errors. */
    method ActWith(e: Exp, env: Env) returns (o: Out)
      requires Valid() && (e.ReturnWith? || e.ResumeWith?)
      modifies this
      ensures Balanced()
      ensures var r := Eval(e, env, Enabled(handlers), Levels(active, handlers), |handlers|, old(world));
        world == r.w && SameOut(o, r.out, handlers)
      decreases world.gas, 1, e, 0
    {
      hide Enabled, PlaceOf, Ordered, Levels, Deliver, Fresh;
      o := Evaluate(e.exc, env);
      if !o.Val? { return; }
      var exc := o.v;
      o := Evaluate(e.value, env);
      if !o.Val? { return; }
      var id := ActiveIdOf(exc);
      if id == 0 || (e.ResumeWith? && !Resumable(exc.exc.cls)) {
        o := SignalNew(Error);
      } else {
        o := if e.ReturnWith? then Unwind(id, o.v) else Resumed(id, o.v);
      }
    }

    /** retry and pass. */
    method Act(e: Exp, env: Env) returns (o: Out)
      requires Valid() && (e.Retry? || e.Pass?)
      modifies this
      ensures Balanced()
      ensures var r := Eval(e, env, Enabled(handlers), Levels(active, handlers), |handlers|, old(world));
        world == r.w && SameOut(o, r.out, handlers)
      decreases world.gas, 1, e, 0
    {
      hide Enabled, PlaceOf, Ordered, Levels, Deliver, Fresh;
      o := Evaluate(e.exc, env);
      if !o.Val? { return; }
      var id := ActiveIdOf(o.v);
      if id == 0 {
        o := SignalNew(Error);
      } else {
        o := if e.Retry? then Again(id) else Passed(id);
      }
    }

    /** One guard: each turn of the loop is one attempt. */
    method RunProtectedSingle(e: Exp, env: Env) returns (o: Out)
      requires Valid() && e.OnDo?
      modifies this
      ensures Balanced()
      ensures var r := Eval(e, env, Enabled(handlers), Levels(active, handlers), |handlers|, old(world));
        world == r.w && SameOut(o, r.out, handlers)
      decreases world.gas, 1, e, 0
    {
      hide Enabled, PlaceOf, Levels, Deliver, Eval;
      ghost var s, sig, w0 := handlers, active, world;
      ghost var levels := Levels(active, handlers);
      while true
        invariant Valid() && handlers == s && active == sig && levels == Levels(sig, s) && world.gas <= w0.gas
        invariant Eval(e, env, Enabled(s), levels, |s|, w0) == Eval(e, env, Enabled(s), levels, |s|, world)
        decreases world.gas
      {
        OneAttempt(e, env, Enabled(s), levels, |s|, world);
        ghost var w := world;
        var id := Push(e.guard, e.handler, env);
        ghost var entry := handlers[|s|];
        OneMoreEnabled(s, entry);
        o := Evaluate(e.body, env);
        StaysInside(e.body, env, s, [entry], sig, w, o);
        PlaceUnique(handlers, |s|);
        Pop(id);
        assert handlers == s;
        if o.Unwind? && o.level == id { return Val(o.v); }
        if !o.Again? || o.level != id { return; }
        if world.gas == 0 { return OutOfGas; }
        world := world.(gas := world.gas - 1);
      }
    }

    /** Two guards, pushed in order, so that the second is asked first; both are popped however
        the block ends, and a transfer that names either is this construct's. */
    method RunProtected(e: Exp, env: Env) returns (o: Out)
      requires Valid() && e.OnDoOnDo?
      modifies this
      ensures Balanced()
      ensures var r := Eval(e, env, Enabled(handlers), Levels(active, handlers), |handlers|, old(world));
        world == r.w && SameOut(o, r.out, handlers)
      decreases world.gas, 1, e, 0
    {
      hide Enabled, PlaceOf, Levels, Deliver, Eval;
      ghost var s, sig, w0 := handlers, active, world;
      ghost var levels := Levels(active, handlers);
      while true
        invariant Valid() && handlers == s && active == sig && levels == Levels(sig, s) && world.gas <= w0.gas
        invariant Eval(e, env, Enabled(s), levels, |s|, w0) == Eval(e, env, Enabled(s), levels, |s|, world)
        decreases world.gas
      {
        TwoGuardAttempt(e, env, Enabled(s), levels, |s|, world);
        ghost var w := world;
        var id, id2 := PushBoth(e.guard, e.handler, e.guard2, e.handler2, env);
        ghost var more := handlers[|s|..];
        o := Evaluate(e.body, env);
        StaysInside(e.body, env, s, more, sig, w, o);
        PopBoth(id, id2, s);
        if o.Unwind? && (o.level == id || o.level == id2) { return Val(o.v); }
        if !o.Again? || !(o.level == id || o.level == id2) { return; }
        if world.gas == 0 { return OutOfGas; }
        world := world.(gas := world.gas - 1);
      }
    }

    method PushBoth(guard: Guard, body: Exp, guard2: Guard, body2: Exp, env: Env) returns (id: nat, id2: nat)
      requires Valid()
      modifies this
      ensures Valid() && active == old(active) && world == old(world)
      ensures handlers == old(handlers) + [Entry(guard, body, env, id, true), Entry(guard2, body2, env, id2, true)]
      ensures handlers[|old(handlers)|..] == [Entry(guard, body, env, id, true), Entry(guard2, body2, env, id2, true)]
      ensures var n := |old(handlers)|;
        Enabled(handlers) == Enabled(old(handlers)) + [Handler(guard, body, env, n), Handler(guard2, body2, env, n + 1)]
      ensures Levels(active, handlers) == Levels(old(active), old(handlers))
    {
      hide Enabled, PlaceOf, Levels;
      ghost var s := handlers;
      id := Push(guard, body, env);
      ghost var s1 := handlers;
      OneMoreEnabled(s, s1[|s|]);
      id2 := Push(guard2, body2, env);
      OneMoreEnabled(s1, handlers[|s1|]);
      TwoMore(Enabled(s), s1[|s|], handlers[|s1|], |s|);
      assert handlers == s + [s1[|s|], handlers[|s1|]];
    }

    /** Newest first. */
    method PopBoth(id: nat, id2: nat, ghost s: seq<Entry>)
      requires Ordered(handlers) && |handlers| == |s| + 2 && handlers[..|s|] == s
      requires handlers[|s|].id == id && handlers[|s| + 1].id == id2
      modifies `handlers
      ensures handlers == s
    {
      hide PlaceOf;
      PlaceUnique(handlers, |s| + 1);
      Pop(id2);
      assert handlers == old(handlers)[..|s| + 1];
      PlaceUnique(handlers, |s|);
      Pop(id);
    }

    /** The cleanup runs however the block is left, but not when it is suspended. Its first run
        after a normal end stands inside the try, so that its own failure starts it again. */
    method RunEnsure(e: Exp, env: Env) returns (o: Out)
      requires Valid() && e.Ensure?
      modifies this
      ensures Balanced()
      ensures var r := Eval(e, env, Enabled(handlers), Levels(active, handlers), |handlers|, old(world));
        world == r.w && SameOut(o, r.out, handlers)
      decreases world.gas, 1, e, 0
    {
      hide Enabled, PlaceOf, Ordered, Levels, Deliver;
      o := Evaluate(e.body, env);
      if o.Suspended? || o.OutOfGas? { return; }
      world := Log(world, Ended(e.k, !o.Val?));
      var exit := o;
      if o.Val? {
        world := Log(world, Cleaning(e.k));
        o := Evaluate(e.cleanup, env);
        if o.Val? { return exit; }
        if o.Suspended? || o.OutOfGas? { return; }
        world := Log(world, Broke(e.k, false));
        exit := o;
      }
      world := Log(world, Cleaning(e.k));
      o := Evaluate(e.cleanup, env);
      if o.Val? { o := exit; } else if !o.Suspended? && !o.OutOfGas? { world := Log(world, Broke(e.k, true)); }
    }

    method RunIfCurtailed(e: Exp, env: Env) returns (o: Out)
      requires Valid() && e.IfCurtailed?
      modifies this
      ensures Balanced()
      ensures var r := Eval(e, env, Enabled(handlers), Levels(active, handlers), |handlers|, old(world));
        world == r.w && SameOut(o, r.out, handlers)
      decreases world.gas, 1, e, 0
    {
      hide Enabled, PlaceOf, Ordered, Levels, Deliver;
      o := Evaluate(e.body, env);
      if o.Suspended? || o.OutOfGas? { return; }
      world := Log(world, Ended(e.k, !o.Val?));
      if o.Val? { return; }
      var exit := o;
      world := Log(world, Cleaning(e.k));
      o := Evaluate(e.cleanup, env);
      if o.Val? { o := exit; } else if !o.Suspended? && !o.OutOfGas? { world := Log(world, Broke(e.k, true)); }
    }
  }

  lemma OneMoreActive(active: seq<ActiveSignal>, s: seq<Entry>, exc: Exc, k: nat)
    requires Ordered(s) && k < |s| && forall i :: 0 <= i < |active| ==> Placed(active[i], s)
    ensures var more := active + [ActiveSignal(exc, s[k].id)];
      (forall i :: 0 <= i < |more| ==> Placed(more[i], s)) && Levels(more, s) == Levels(active, s) + [Active(exc, k)]
  {
    PlaceIs(s, k);
  }

  lemma SkipTo(exc: Exc, s: seq<Entry>, start: nat, k: nat, active: seq<Active>, w: World)
    requires k <= start <= |s| && forall i :: k <= i < start ==> !Takes(s[i], exc.cls)
    ensures Deliver(exc, Enabled(s[..start]), active, |s|, w) == Deliver(exc, Enabled(s[..k]), active, |s|, w)
  {
    SkipToMatch(exc, s[..start], k, active, |s|, w);
    assert s[..start][..k] == s[..k];
  }

  lemma NobodyTakes(exc: Exc, s: seq<Entry>, active: seq<Active>, w: World)
    ensures Deliver(exc, Enabled(s[..0]), active, |s|, w) == Result(Default(exc), w)
  {
  }

  /** What becomes of an exception that the entry at place `k` takes. */
  lemma DeliverTo(exc: Exc, s: seq<Entry>, k: nat, active: seq<Active>, w: World)
    requires k < |s| && Takes(s[k], exc.cls)
    ensures Deliver(exc, Enabled(s[..k + 1]), active, |s|, w) ==
      if w.gas == 0 then Result(OutOfGas, w)
      else
        var r := Eval(s[k].body, s[k].env + [Thrown(exc)], Enabled(s[..k]), active + [Active(exc, k)], |s|, w.(gas := w.gas - 1));
        if r.out.Resumed? && r.out.level == k then Result(Val(r.out.v), r.w)
        else if r.out.Passed? && r.out.level == k then Deliver(exc, Enabled(s[..k]), active, |s|, r.w)
        else if r.out.Val? then Result(Unwind(k, r.out.v), r.w)
        else r
  {
    hide Eval;
    LastEnabled(s, k);
  }

  lemma PlaceUnique(s: seq<Entry>, k: nat)
    requires Ordered(s) && k < |s|
    ensures PlaceOf(s, s[k].id) == k && s[k].id != 0
    ensures forall i :: 0 <= i < |s| && s[i].id == s[k].id ==> i == k
  {
    PlaceIs(s, k);
    forall i | 0 <= i < |s| && s[i].id == s[k].id ensures i == k {
      if i < k {} else if k < i {}
    }
  }

  lemma LastEnabled(s: seq<Entry>, k: nat)
    requires k < |s| && s[k].enabled
    ensures Enabled(s[..k + 1]) == Enabled(s[..k]) + [Handler(s[k].guard, s[k].body, s[k].env, k)]
    ensures Enabled(s[..k + 1])[..|Enabled(s[..k + 1])| - 1] == Enabled(s[..k])
  {
    assert s[..k + 1][..k] == s[..k];
  }

  lemma LevelFound(active: seq<Active>, i: nat, v: Value)
    requires i <= |active|
    ensures active[..|active|] == active
    ensures i == 0 || !v.Thrown? ==> LevelOf(active[..i], v) == -1
    ensures i > 0 && v.Thrown? ==>
      (LevelOf(active[..i], v) == if active[i - 1].exc == v.exc then active[i - 1].level else LevelOf(active[..i - 1], v))
  {
    if i > 0 { assert active[..i][..i - 1] == active[..i - 1]; }
  }

  lemma OneMoreEnabled(s: seq<Entry>, e: Entry)
    requires e.enabled
    ensures Enabled(s + [e]) == Enabled(s) + [Handler(e.guard, e.body, e.env, |s|)]
  {
    assert (s + [e])[..|s|] == s;
  }

  lemma TwoMore(hs: seq<Handler>, a: Entry, b: Entry, n: nat)
    ensures hs + [Handler(a.guard, a.body, a.env, n)] + [Handler(b.guard, b.body, b.env, n + 1)]
         == hs + [Handler(a.guard, a.body, a.env, n), Handler(b.guard, b.body, b.env, n + 1)]
  {
  }

  lemma OneAttempt(e: Exp, env: Env, hs: seq<Handler>, active: seq<Active>, depth: nat, w: World)
    requires e.OnDo?
    ensures var r := Eval(e.body, env, hs + [Handler(e.guard, e.handler, env, depth)], active, depth + 1, w);
      Eval(e, env, hs, active, depth, w) ==
      if r.out.Unwind? && r.out.level == depth then Result(Val(r.out.v), r.w)
      else if r.out.Again? && r.out.level == depth then
        if r.w.gas == 0 then Result(OutOfGas, r.w) else Eval(e, env, hs, active, depth, r.w.(gas := r.w.gas - 1))
      else r
  {
  }

  lemma TwoGuardAttempt(e: Exp, env: Env, hs: seq<Handler>, active: seq<Active>, depth: nat, w: World)
    requires e.OnDoOnDo?
    ensures var r := Eval(e.body, env, hs + [Handler(e.guard, e.handler, env, depth), Handler(e.guard2, e.handler2, env, depth + 1)],
                          active, depth + 2, w);
      Eval(e, env, hs, active, depth, w) ==
      if r.out.Unwind? && depth <= r.out.level <= depth + 1 then Result(Val(r.out.v), r.w)
      else if r.out.Again? && depth <= r.out.level <= depth + 1 then
        if r.w.gas == 0 then Result(OutOfGas, r.w) else Eval(e, env, hs, active, depth, r.w.(gas := r.w.gas - 1))
      else r
  {
  }

  lemma {:induction false} EnabledBelow(s: seq<Entry>)
    ensures forall i :: 0 <= i < |Enabled(s)| ==> Enabled(s)[i].level < |s|
  {
    if s != [] { EnabledBelow(s[..|s| - 1]); }
  }

  /** A transfer that a protected block is left by, and that is not the construct's own unwind or
      retry, names an entry that was there before the construct pushed its own. */
  lemma StaysInside(body: Exp, env: Env, s: seq<Entry>, more: seq<Entry>, active: seq<ActiveSignal>, w: World, o: Out)
    requires Ordered(s + more) && forall i :: 0 <= i < |active| ==> Placed(active[i], s)
    requires forall i :: 0 <= i < |active| ==> Placed(active[i], s + more)
    requires Levels(active, s + more) == Levels(active, s)
    requires SameOut(o, Eval(body, env, Enabled(s + more), Levels(active, s + more), |s + more|, w).out, s + more)
    ensures var out := Eval(body, env, Enabled(s + more), Levels(active, s + more), |s + more|, w).out;
      && ((out.Unwind? || out.Again?) && out.level >= |s| ==> exists i :: 0 <= i < |more| && out.level == |s| + i && more[i].id == o.level)
      && (!((out.Unwind? || out.Again?) && out.level >= |s|) ==>
            SameOut(o, out, s) && ((o.Unwind? || o.Again?) ==> forall i :: 0 <= i < |more| ==> more[i].id != o.level))
  {
    hide Eval, Enabled, Levels, PlaceOf;
    var levels := Levels(active, s + more);
    EnabledBelow(s + more);
    EscapesAreLive(body, env, Enabled(s + more), levels, |s + more|, w);
    var out := Eval(body, env, Enabled(s + more), levels, |s + more|, w).out;
    if (out.Unwind? || out.Again?) && out.level >= |s| {
      assert (s + more)[out.level] == more[out.level - |s|];
    } else if out.Unwind? || out.Again? {
      assert (s + more)[out.level] == s[out.level];
      forall i | 0 <= i < |more| ensures more[i].id != o.level {
        assert (s + more)[|s| + i] == more[i];
        assert (s + more)[out.level].id < (s + more)[|s| + i].id;
      }
    } else if out.Resumed? || out.Passed? {
      assert (s + more)[out.level] == s[out.level];
    }
  }

  /** A program run on empty stacks ends exactly as its meaning says, with nothing in flight that
      names a handler. */
  method RunProgram(e: Exp, w: World) returns (o: Out, end: World)
    ensures Result(o, end) == Eval(e, [], [], [], 0, w)
    ensures o.Val? || o.Unhandled? || o.Left? || o.Suspended? || o.OutOfGas?
  {
    hide Eval, PlaceOf;
    var t := new Thread(w);
    assert Enabled(t.handlers) == [] && Levels(t.active, t.handlers) == [];
    NothingEscapesAProgram(e, w);
    o := t.Evaluate(e, []);
    end := t.world;
  }
}
