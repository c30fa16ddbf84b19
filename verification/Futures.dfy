/** One future and any number of threads that settle it, register callbacks on it or wait for it,
    interleaved at every read, compare-and-swap and write of its attributes. */
module Futures {

  type Value = int

  datatype Option<T> = None | Some(value: T)

  /** A registration list: open, or swapped for the terminal sentinel. */
  datatype Cell = Open(items: seq<nat>) | Drained

  /** Where a thread stands in its operation. A registration or a waiting actor is named by the
      thread that brings it. */
  datatype Pc =
    // resolve: and rejectWith:
    | Claim(reject: bool, payload: Value)
    | Write(reject: bool, payload: Value)
    | Drain(reject: bool, payload: Value)
    | Take(reject: bool, payload: Value, cur: seq<nat>)
    | Fire(reject: bool, payload: Value, rest: seq<nat>)
    | Publish(reject: bool, payload: Value)
    | Notify(reject: bool, payload: Value)
    | DrainWaiters(reject: bool, payload: Value)
    | TakeWaiters(reject: bool, payload: Value, cur: seq<nat>)
    | Wake(reject: bool, payload: Value, rest: seq<nat>)
    | Settled(reject: bool, payload: Value)
    | Lost
    // thenDo: (onReject is false) and catch: (onReject is true)
    | Look(onReject: bool)
    | Listen(onReject: bool)
    | Append(onReject: bool, cur: seq<nat>)
    | FireNow(onReject: bool)
    | Appended(onReject: bool)
    | Fired(onReject: bool)
    | Skipped(onReject: bool)
    // an actor that yields on the future
    | Ask
    | ReadWaiters
    | Park(cur: seq<nat>)
    | ScheduleSelf
    | Parked
    | SelfScheduled
    // wait on the main thread
    | Mark
    | Poll
    | Blocked
    | Unmark
    | Done

  datatype Future = Future(
    winner: Option<nat>,           // __settling__, with the thread that claimed it
    value: Option<Value>,
    error: Option<Value>,
    thenCbs: Cell,
    catchCbs: Cell,
    waiters: Cell,
    state: nat,                    // 0 pending, 1 resolved, 2 rejected
    mainWaiting: bool,             // the main thread has announced this future
    permits: nat,                  // of the main thread's semaphore
    runs: map<nat, seq<Value>>,    // the arguments each callback has run with
    scheduled: map<nat, nat>,      // how often each actor was handed to the scheduler
    threads: map<nat, Pc>)

  function RunsOf(f: Future, t: nat): seq<Value> { if t in f.runs then f.runs[t] else [] }

  function Times(f: Future, t: nat): nat { if t in f.scheduled then f.scheduled[t] else 0 }

  function Cbs(f: Future, reject: bool): Cell { if reject then f.catchCbs else f.thenCbs }

  function WithCbs(f: Future, reject: bool, c: Cell): Future {
    if reject then f.(catchCbs := c) else f.(thenCbs := c)
  }

  function ResultOf(f: Future, reject: bool): Option<Value> { if reject then f.error else f.value }

  function Goto(f: Future, t: nat, pc: Pc): (g: Future)
    ensures g.threads.Keys == f.threads.Keys + {t}
  {
    f.(threads := f.threads[t := pc])
  }

  function Ran(f: Future, t: nat, v: Value): Future { f.(runs := f.runs[t := RunsOf(f, t) + [v]]) }

  function Scheduled(f: Future, t: nat): Future { f.(scheduled := f.scheduled[t := Times(f, t) + 1]) }

  /** An absent result reads as nil, which is 0 here. */
  function Read(r: Option<Value>): Value { if r.Some? then r.value else 0 }

  /** The next atomic step of a thread. */
  function Step(f: Future, t: nat): (g: Future)
    requires t in f.threads
    ensures g.threads.Keys == f.threads.Keys
  {
    match f.threads[t]
    case Claim(r, v) => if f.winner == None then Goto(f.(winner := Some(t)), t, Write(r, v)) else Goto(f, t, Lost)
    case Write(r, v) => Goto(if r then f.(error := Some(v)) else f.(value := Some(v)), t, Drain(r, v))
    case Drain(r, v) => if Cbs(f, r).Drained? then Goto(f, t, Fire(r, v, [])) else Goto(f, t, Take(r, v, Cbs(f, r).items))
    case Take(r, v, cur) =>
      if Cbs(f, r) == Open(cur) then Goto(WithCbs(f, r, Drained), t, Fire(r, v, cur)) else Goto(f, t, Drain(r, v))
    case Fire(r, v, rest) =>
      if rest == [] then Goto(f, t, Publish(r, v)) else Goto(Ran(f, rest[0], v), t, Fire(r, v, rest[1..]))
    case Publish(r, v) => Goto(f.(state := if r then 2 else 1), t, Notify(r, v))
    case Notify(r, v) => Goto(if f.mainWaiting then f.(permits := f.permits + 1) else f, t, DrainWaiters(r, v))
    case DrainWaiters(r, v) =>
      if f.waiters.Drained? then Goto(f, t, Wake(r, v, [])) else Goto(f, t, TakeWaiters(r, v, f.waiters.items))
    case TakeWaiters(r, v, cur) =>
      if f.waiters == Open(cur) then Goto(f.(waiters := Drained), t, Wake(r, v, cur)) else Goto(f, t, DrainWaiters(r, v))
    case Wake(r, v, rest) =>
      if rest == [] then Goto(f, t, Settled(r, v)) else Goto(Scheduled(f, rest[0]), t, Wake(r, v, rest[1..]))
    case Look(k) =>
      if f.state == 0 then Goto(f, t, Listen(k))
      else if (f.state == 2) == k then Goto(f, t, FireNow(k))
      else Goto(f, t, Skipped(k))
    case Listen(k) => if Cbs(f, k).Drained? then Goto(f, t, FireNow(k)) else Goto(f, t, Append(k, Cbs(f, k).items))
    case Append(k, cur) =>
      if Cbs(f, k) == Open(cur) then Goto(WithCbs(f, k, Open(cur + [t])), t, Appended(k)) else Goto(f, t, Listen(k))
    case FireNow(k) => Goto(Ran(f, t, Read(ResultOf(f, k))), t, Fired(k))
    case Ask => if f.state != 0 then Goto(f, t, ScheduleSelf) else Goto(f, t, ReadWaiters)
    case ReadWaiters => if f.waiters.Drained? then Goto(f, t, ScheduleSelf) else Goto(f, t, Park(f.waiters.items))
    case Park(cur) =>
      if f.waiters == Open(cur) then Goto(f.(waiters := Open(cur + [t])), t, Parked) else Goto(f, t, ReadWaiters)
    case ScheduleSelf => Goto(Scheduled(f, t), t, SelfScheduled)
    case Mark => Goto(f.(mainWaiting := true), t, Poll)
    case Poll => if f.state == 0 then Goto(f, t, Blocked) else Goto(f, t, Unmark)
    case Blocked => if f.permits == 0 then f else Goto(f.(permits := f.permits - 1), t, Poll)
    case Unmark => Goto(f.(mainWaiting := false), t, Done)
    case _ => f
  }

  /** A run: at each point of the schedule that thread takes its next step. */
  function Run(f: Future, schedule: seq<nat>): Future
    requires forall i :: 0 <= i < |schedule| ==> schedule[i] in f.threads
    decreases |schedule|
  {
    if schedule == [] then f
    else
      Run(Step(f, schedule[0]), schedule[1..])
  }

  predicate Starts(pc: Pc) { pc.Claim? || pc.Look? || pc.Ask? || pc.Mark? }

  /** A new future, and threads about to begin; the main thread waits at most once at a time. */
  predicate Init(f: Future) {
    && f == Future(None, None, None, Open([]), Open([]), Open([]), 0, false, 0, map[], map[], f.threads)
    && (forall t | t in f.threads :: Starts(f.threads[t]))
    && (forall t, u | t in f.threads && u in f.threads && f.threads[t].Mark? && f.threads[u].Mark? :: t == u)
  }

  // ----- The invariant -----

  /** How far the settlement has come. */
  function Stage(pc: Pc): nat {
    match pc
    case Write(_, _) => 1
    case Drain(_, _) => 2
    case Take(_, _, _) => 2
    case Fire(_, _, _) => 3
    case Publish(_, _) => 4
    case Notify(_, _) => 5
    case DrainWaiters(_, _) => 6
    case TakeWaiters(_, _, _) => 6
    case Wake(_, _, _) => 7
    case Settled(_, _) => 8
    case _ => 0
  }

  function At(f: Future): nat {
    if f.winner.Some? && f.winner.value in f.threads then Stage(f.threads[f.winner.value]) else 0
  }

  /** The winner's program counter, once there is a winner. */
  predicate HasWinner(f: Future) { At(f) > 0 }

  function Winner(f: Future): (pc: Pc)
    requires HasWinner(f)
    ensures Stage(pc) == At(f)
  {
    f.threads[f.winner.value]
  }

  function Rejects(f: Future): bool
    requires HasWinner(f)
  {
    Winner(f).reject
  }

  function Payload(f: Future): Value
    requires HasWinner(f)
  {
    Winner(f).payload
  }

  /** Callbacks of one kind that are registered and have not run. */
  function Waiting(f: Future, reject: bool): seq<nat> {
    if Cbs(f, reject).Open? then Cbs(f, reject).items
    else if HasWinner(f) && Winner(f).Fire? then Winner(f).rest
    else []
  }

  /** Actors that are parked and have not been handed to the scheduler. */
  function Sleeping(f: Future): seq<nat> {
    if f.waiters.Open? then f.waiters.items
    else if HasWinner(f) && Winner(f).Wake? then Winner(f).rest
    else []
  }

  predicate Distinct(s: seq<nat>) { forall i, j :: 0 <= i < j < |s| ==> s[i] != s[j] }

  /** The attributes of the future, as far as the settlement has come. */
  predicate FieldsOk(f: Future) {
    && (f.winner == None <==> At(f) == 0)
    && (if At(f) == 0 then
          f.value == None && f.error == None && f.thenCbs.Open? && f.catchCbs.Open? && f.waiters.Open? && f.state == 0
        else
          var r := Rejects(f);
          && ResultOf(f, !r) == None
          && ResultOf(f, r) == (if At(f) >= 2 then Some(Payload(f)) else None)
          && Cbs(f, !r).Open? && (Cbs(f, r).Drained? <==> At(f) >= 3)
          && f.state == (if At(f) < 5 then 0 else if r then 2 else 1)
          && (f.waiters.Drained? <==> At(f) >= 7))
  }

  predicate OneSettler(f: Future) {
    forall t | t in f.threads && Stage(f.threads[t]) > 0 :: f.winner == Some(t)
  }

  predicate QueuesOk(f: Future) {
    && Distinct(Waiting(f, false)) && Distinct(Waiting(f, true)) && Distinct(Sleeping(f))
    && (forall k: bool, i :: 0 <= i < |Waiting(f, k)| ==>
          Waiting(f, k)[i] in f.threads && f.threads[Waiting(f, k)[i]] == Appended(k))
    && (forall i :: 0 <= i < |Sleeping(f)| ==> Sleeping(f)[i] in f.threads && f.threads[Sleeping(f)[i]] == Parked)
  }

  /** A callback's history. */
  predicate CallbackOk(f: Future, t: nat)
    requires t in f.threads
  {
    match f.threads[t]
    case Appended(k) =>
      if t in Waiting(f, k) then RunsOf(f, t) == []
      else HasWinner(f) && Rejects(f) == k && At(f) >= 3 && RunsOf(f, t) == [Payload(f)]
    case Fired(k) => HasWinner(f) && Rejects(f) == k && RunsOf(f, t) == [Payload(f)]
    case FireNow(k) => HasWinner(f) && Rejects(f) == k && At(f) >= 2 && RunsOf(f, t) == []
    case Skipped(k) => HasWinner(f) && Rejects(f) != k && RunsOf(f, t) == []
    case _ => RunsOf(f, t) == []
  }

  /** A waiting actor's history. */
  predicate ActorOk(f: Future, t: nat)
    requires t in f.threads
  {
    match f.threads[t]
    case Parked => Times(f, t) == (if t in Sleeping(f) then 0 else 1) && (t !in Sleeping(f) ==> At(f) >= 7)
    case SelfScheduled => Times(f, t) == 1 && At(f) >= 5
    case ScheduleSelf => Times(f, t) == 0 && At(f) >= 5
    case _ => Times(f, t) == 0
  }

  predicate InWait(pc: Pc) { pc.Poll? || pc.Blocked? || pc.Unmark? }

  /** The main thread announced the future before it looked, and is not left behind. */
  predicate MainOk(f: Future) {
    && (forall t, u | t in f.threads && u in f.threads && (f.threads[t].Mark? || InWait(f.threads[t])) && (f.threads[u].Mark? || InWait(f.threads[u]))
          :: t == u)
    && (forall t | t in f.threads && InWait(f.threads[t]) :: f.mainWaiting)
    && (forall t | t in f.threads && f.threads[t].Blocked? && At(f) >= 6 :: f.permits > 0)
  }

  predicate Inv(f: Future) {
    && FieldsOk(f) && OneSettler(f) && QueuesOk(f) && MainOk(f)
    && (forall t | t in f.threads :: CallbackOk(f, t))
    && (forall t | t in f.threads :: ActorOk(f, t))
  }

  lemma InitInv(f: Future)
    requires Init(f)
    ensures Inv(f)
  {
    forall t | t in f.threads ensures Stage(f.threads[t]) == 0 && !InWait(f.threads[t]) && CallbackOk(f, t) && ActorOk(f, t) {
      assert Starts(f.threads[t]);
    }
    assert At(f) == 0 && Waiting(f, false) == [] && Waiting(f, true) == [] && Sleeping(f) == [];
    forall t, u | t in f.threads && u in f.threads && (f.threads[t].Mark? || InWait(f.threads[t])) && (f.threads[u].Mark? || InWait(f.threads[u]))
      ensures t == u
    {
      assert Starts(f.threads[t]) && Starts(f.threads[u]);
    }
  }

  // ----- Every step keeps it -----

  /** The settlement stands where it stood. */
  predicate SameSettlement(f: Future, g: Future) {
    && g.winner == f.winner && At(g) == At(f)
    && (HasWinner(f) ==> Rejects(g) == Rejects(f) && Payload(g) == Payload(f))
  }

  lemma SameStage(f: Future, g: Future, t: nat)
    requires FieldsOk(f) && OneSettler(f) && t in f.threads && t in g.threads && g.winner == f.winner
    requires g.threads == f.threads[t := g.threads[t]]
    requires Stage(g.threads[t]) == Stage(f.threads[t])
    requires Stage(f.threads[t]) > 0 ==> g.threads[t].reject == f.threads[t].reject && g.threads[t].payload == f.threads[t].payload
    ensures SameSettlement(f, g) && OneSettler(g)
    ensures HasWinner(f) && f.winner != Some(t) ==> Winner(g) == Winner(f)
  {
    forall u | u in g.threads && Stage(g.threads[u]) > 0 ensures g.winner == Some(u) {
      assert Stage(f.threads[u]) > 0;
    }
  }

  /** Histories that a step of another thread leaves alone. */
  lemma SameHistory(f: Future, g: Future, u: nat)
    requires u in f.threads && u in g.threads && g.threads[u] == f.threads[u]
    requires CallbackOk(f, u) && ActorOk(f, u) && RunsOf(g, u) == RunsOf(f, u) && Times(g, u) == Times(f, u)
    requires HasWinner(f) ==> HasWinner(g) && Rejects(g) == Rejects(f) && Payload(g) == Payload(f)
    requires At(g) >= At(f)
    requires forall k: bool :: (u in Waiting(g, k) <==> u in Waiting(f, k))
    requires u in Sleeping(g) <==> u in Sleeping(f)
    ensures CallbackOk(g, u) && ActorOk(g, u)
  {
    hide Waiting, Sleeping, RunsOf, Times, Stage;
  }

  lemma SameQueues(f: Future, g: Future, t: nat)
    requires QueuesOk(f) && t in f.threads && t in g.threads && g.threads == f.threads[t := g.threads[t]]
    requires f.threads[t] == g.threads[t] || (!f.threads[t].Appended? && !f.threads[t].Parked?)
    requires Waiting(g, false) == Waiting(f, false) && Waiting(g, true) == Waiting(f, true) && Sleeping(g) == Sleeping(f)
    ensures QueuesOk(g)
  {
    hide Waiting, Sleeping;
  }

  lemma SameMain(f: Future, g: Future, t: nat)
    requires MainOk(f) && t in f.threads && t in g.threads && g.threads == f.threads[t := g.threads[t]]
    requires f.mainWaiting ==> g.mainWaiting
    requires g.permits >= f.permits && (At(g) >= 6 && At(f) < 6 && f.mainWaiting ==> g.permits > 0)
    requires g.threads[t].Mark? || InWait(g.threads[t]) ==> f.threads[t].Mark? || InWait(f.threads[t])
    requires (InWait(g.threads[t]) ==> g.mainWaiting) && (g.threads[t].Blocked? && At(g) >= 6 ==> g.permits > 0)
    ensures MainOk(g)
  {
    hide At;
  }

  predicate SameAttributes(f: Future, g: Future) {
    && g.value == f.value && g.error == f.error && g.thenCbs == f.thenCbs && g.catchCbs == f.catchCbs
    && g.waiters == f.waiters && g.state == f.state
  }

  lemma SameFields(f: Future, g: Future)
    requires FieldsOk(f) && SameSettlement(f, g) && SameAttributes(f, g)
    ensures FieldsOk(g)
  {
    hide At;
  }

  lemma SameLists(f: Future, g: Future, t: nat)
    requires t in f.threads && t in g.threads && g.threads == f.threads[t := g.threads[t]] && SameAttributes(f, g) && SameSettlement(f, g)
    requires !f.threads[t].Fire? && !f.threads[t].Wake? && !g.threads[t].Fire? && !g.threads[t].Wake?
    ensures Waiting(g, false) == Waiting(f, false) && Waiting(g, true) == Waiting(f, true) && Sleeping(g) == Sleeping(f)
  {
  }

  /** Putting the invariant together again when nobody is registered, run or scheduled. */
  lemma Rebuild(f: Future, g: Future, t: nat)
    requires Inv(f) && t in f.threads && t in g.threads && g.threads == f.threads[t := g.threads[t]]
    requires FieldsOk(g) && OneSettler(g)
    requires HasWinner(f) ==> HasWinner(g) && Rejects(g) == Rejects(f) && Payload(g) == Payload(f)
    requires At(g) >= At(f) && !f.threads[t].Appended? && !f.threads[t].Parked?
    requires Waiting(g, false) == Waiting(f, false) && Waiting(g, true) == Waiting(f, true) && Sleeping(g) == Sleeping(f)
    requires forall u :: u in f.threads && u != t ==> RunsOf(g, u) == RunsOf(f, u) && Times(g, u) == Times(f, u)
    requires CallbackOk(g, t) && ActorOk(g, t) && MainOk(g)
    ensures Inv(g)
  {
    hide Waiting, Sleeping, At, FieldsOk, OneSettler, MainOk, CallbackOk, ActorOk, Stage, InWait, RunsOf, Times, QueuesOk;
    SameQueues(f, g, t);
    forall u | u in g.threads ensures CallbackOk(g, u) && ActorOk(g, u) {
      if u != t { SameHistory(f, g, u); }
    }
  }

  /** A thread that only moves on, without touching the future. */
  lemma Moves(f: Future, t: nat, pc: Pc)
    requires Inv(f) && t in f.threads
    requires var was, g := f.threads[t], Goto(f, t, pc);
      && Stage(pc) == Stage(was) && (Stage(was) > 0 ==> pc.reject == was.reject && pc.payload == was.payload)
      && !was.Appended? && !was.Parked? && !was.Fire? && !was.Wake? && !pc.Fire? && !pc.Wake?
      && CallbackOk(g, t) && ActorOk(g, t)
      && (pc.Mark? || InWait(pc) ==> was.Mark? || InWait(was)) && (InWait(pc) ==> f.mainWaiting)
      && (pc.Blocked? && At(f) >= 6 ==> f.permits > 0)
    ensures Inv(Goto(f, t, pc))
  {
    hide Waiting, Sleeping, At, FieldsOk, OneSettler, QueuesOk, MainOk, CallbackOk, ActorOk, Stage, InWait;
    var g := Goto(f, t, pc);
    SameStage(f, g, t);
    SameLists(f, g, t);
    SameFields(f, g);
    SameMain(f, g, t);
    Rebuild(f, g, t);
  }

  // ----- The settler -----

  lemma WinnerIs(f: Future, t: nat)
    requires FieldsOk(f) && OneSettler(f) && t in f.threads && Stage(f.threads[t]) > 0
    ensures HasWinner(f) && f.winner == Some(t) && Winner(f) == f.threads[t] && At(f) == Stage(f.threads[t])
  {
  }

  lemma ClaimKeeps(f: Future, t: nat)
    requires Inv(f) && t in f.threads && f.threads[t].Claim?
    ensures Inv(Step(f, t))
  {
    InvParts(f);
    hide Waiting, Sleeping, At, FieldsOk, OneSettler, QueuesOk, MainOk, CallbackOk, ActorOk, Step;
    assert CallbackOk(f, t) && ActorOk(f, t);
    ClaimStep(f, t);
    var g := Step(f, t);
    ClaimHistory(f, g, t);
    if f.winner == None {
      ClaimFields(f, t);
      SameMain(f, g, t);
      Rebuild(f, g, t);
    } else {
      Moves(f, t, Lost);
    }
  }

  lemma ClaimStep(f: Future, t: nat)
    requires t in f.threads && f.threads[t].Claim?
    ensures var pc := f.threads[t];
      Step(f, t) == if f.winner == None then Goto(f.(winner := Some(t)), t, Write(pc.reject, pc.payload)) else Goto(f, t, Lost)
  {
  }

  lemma ClaimHistory(f: Future, g: Future, t: nat)
    requires t in f.threads && t in g.threads && f.threads[t].Claim? && (g.threads[t].Write? || g.threads[t].Lost?)
    requires CallbackOk(f, t) && ActorOk(f, t) && g.runs == f.runs && g.scheduled == f.scheduled
    ensures CallbackOk(g, t) && ActorOk(g, t)
  {
    hide Waiting, Sleeping, At;
  }

  lemma ClaimFields(f: Future, t: nat)
    requires FieldsOk(f) && OneSettler(f) && t in f.threads && f.threads[t].Claim? && f.winner == None
    ensures var g := Step(f, t); FieldsOk(g) && OneSettler(g) && At(f) == 0 && At(g) == 1
    ensures var g := Step(f, t);
      Waiting(g, false) == Waiting(f, false) && Waiting(g, true) == Waiting(f, true) && Sleeping(g) == Sleeping(f)
  {
    var g := Step(f, t);
    forall u | u in g.threads ensures u != t ==> Stage(g.threads[u]) == 0 {}
  }

  predicate CanAdvance(f: Future, pc: Pc) {
    || pc.Write? || (pc.Take? && Cbs(f, pc.reject) == Open(pc.cur)) || (pc.Fire? && pc.rest == []) || pc.Publish? || pc.Notify?
    || (pc.TakeWaiters? && f.waiters == Open(pc.cur)) || (pc.Wake? && pc.rest == [])
  }

  /** A settler's step that runs and schedules nobody: the settlement is one stage further. */
  predicate Advanced(f: Future, g: Future) {
    && HasWinner(f) && HasWinner(g) && g.winner == f.winner && Rejects(g) == Rejects(f) && Payload(g) == Payload(f) && At(g) == At(f) + 1
  }

  lemma AdvanceStage(f: Future, t: nat)
    requires FieldsOk(f) && OneSettler(f) && t in f.threads && CanAdvance(f, f.threads[t])
    ensures Advanced(f, Step(f, t)) && f.winner == Some(t) && Winner(Step(f, t)) == Step(f, t).threads[t]
  {
    WinnerIs(f, t);
    var g := Step(f, t);
    assert g.winner == f.winner && g.winner.value == t;
    assert Stage(g.threads[t]) == Stage(f.threads[t]) + 1;
  }

  lemma AdvanceOne(f: Future, g: Future, t: nat)
    requires OneSettler(f) && t in f.threads && t in g.threads && g.threads == f.threads[t := g.threads[t]]
    requires g.winner == f.winner == Some(t)
    ensures OneSettler(g)
  {
    forall u | u in g.threads && Stage(g.threads[u]) > 0 ensures g.winner == Some(u) {
      if u != t { assert Stage(f.threads[u]) > 0; }
    }
  }

  lemma AdvanceFields(f: Future, t: nat)
    requires FieldsOk(f) && OneSettler(f) && t in f.threads && CanAdvance(f, f.threads[t])
    ensures FieldsOk(Step(f, t))
  {
    WinnerIs(f, t);
    AdvanceStage(f, t);
    hide At, OneSettler;
  }

  lemma AdvanceLists(f: Future, t: nat)
    requires FieldsOk(f) && OneSettler(f) && t in f.threads && CanAdvance(f, f.threads[t])
    ensures var g := Step(f, t);
      Waiting(g, false) == Waiting(f, false) && Waiting(g, true) == Waiting(f, true) && Sleeping(g) == Sleeping(f)
  {
    WinnerIs(f, t);
    AdvanceStage(f, t);
    hide At, OneSettler, Stage;
  }

  lemma SettlerHistory(f: Future, g: Future, t: nat)
    requires t in f.threads && t in g.threads && CallbackOk(f, t) && ActorOk(f, t)
    requires Stage(f.threads[t]) > 0 && Stage(g.threads[t]) > 0 && RunsOf(g, t) == RunsOf(f, t) && Times(g, t) == Times(f, t)
    ensures CallbackOk(g, t) && ActorOk(g, t)
  {
    hide Waiting, Sleeping, At, RunsOf, Times;
  }

  lemma AdvanceRest(f: Future, t: nat)
    requires t in f.threads && CanAdvance(f, f.threads[t])
    ensures var g := Step(f, t);
      && g.threads == f.threads[t := g.threads[t]] && g.runs == f.runs && g.scheduled == f.scheduled
      && g.permits >= f.permits && g.mainWaiting == f.mainWaiting && (f.threads[t].Notify? && f.mainWaiting ==> g.permits > 0)
      && Stage(f.threads[t]) > 0 && Stage(g.threads[t]) == Stage(f.threads[t]) + 1 && (Stage(g.threads[t]) == 6 ==> f.threads[t].Notify?)
  {
    match f.threads[t]
    case Write(r, v) => assert Step(f, t) == Goto(if r then f.(error := Some(v)) else f.(value := Some(v)), t, Drain(r, v));
    case Take(r, v, cur) => assert Step(f, t) == Goto(WithCbs(f, r, Drained), t, Fire(r, v, cur));
    case Fire(r, v, _) => assert Step(f, t) == Goto(f, t, Publish(r, v));
    case Publish(r, v) => assert Step(f, t) == Goto(f.(state := if r then 2 else 1), t, Notify(r, v));
    case Notify(r, v) => assert Step(f, t) == Goto(if f.mainWaiting then f.(permits := f.permits + 1) else f, t, DrainWaiters(r, v));
    case TakeWaiters(r, v, cur) => assert Step(f, t) == Goto(f.(waiters := Drained), t, Wake(r, v, cur));
    case Wake(r, v, _) => assert Step(f, t) == Goto(f, t, Settled(r, v));
  }

  lemma AdvanceKeeps(f: Future, t: nat)
    requires Inv(f) && t in f.threads && CanAdvance(f, f.threads[t])
    ensures Inv(Step(f, t))
  {
    InvParts(f);
    hide Waiting, Sleeping, At, FieldsOk, OneSettler, QueuesOk, MainOk, CallbackOk, ActorOk, Stage, Step, CanAdvance, Winner;
    var g := Step(f, t);
    AdvanceRest(f, t);
    AdvanceStage(f, t);
    AdvanceOne(f, g, t);
    AdvanceFields(f, t);
    AdvanceLists(f, t);
    WinnerIs(f, t);
    WinnerIs(g, t);
    assert CallbackOk(f, t) && ActorOk(f, t) by { assert t in f.threads; }
    assert RunsOf(g, t) == RunsOf(f, t) && Times(g, t) == Times(f, t);
    SettlerHistory(f, g, t);
    StagesAreApart(f.threads[t]);
    StagesAreApart(g.threads[t]);
    SameMain(f, g, t);
    Rebuild(f, g, t);
  }

  lemma StagesAreApart(pc: Pc)
    ensures Stage(pc) > 0 ==> !pc.Appended? && !pc.Parked? && !pc.Mark? && !InWait(pc)
  {
  }

  lemma InvParts(f: Future)
    requires Inv(f)
    ensures FieldsOk(f) && OneSettler(f) && QueuesOk(f) && MainOk(f)
  {
  }

  /** The settler runs the next callback of the list it took. */
  lemma FireKeeps(f: Future, t: nat)
    requires Inv(f) && t in f.threads && f.threads[t].Fire? && f.threads[t].rest != []
    ensures Inv(Step(f, t))
  {
    var g := Step(f, t);
    InvParts(f);
    FireRest(f, t);
    FireLists(f, t);
    assert g.threads.Keys == f.threads.Keys;
    hide Step, Waiting, Sleeping, QueuesOk, MainOk, FieldsOk, OneSettler, CallbackOk, ActorOk;
    forall u | u in g.threads ensures CallbackOk(g, u) && ActorOk(g, u) { FireHistory(f, g, t, u); }
  }

  lemma FireRest(f: Future, t: nat)
    requires FieldsOk(f) && OneSettler(f) && QueuesOk(f) && MainOk(f) && t in f.threads && f.threads[t].Fire? && f.threads[t].rest != []
    ensures var g := Step(f, t); SameSettlement(f, g) && OneSettler(g) && FieldsOk(g) && QueuesOk(g) && MainOk(g)
  {
    var g, r := Step(f, t), f.threads[t].reject;
    WinnerIs(f, t);
    SameStage(f, g, t);
    SameFields(f, g);
    FireLists(f, t);
    hide Waiting, Sleeping, FieldsOk, OneSettler;
    FireQueues(f, g, t, r);
    SameMain(f, g, t);
  }

  lemma FireLists(f: Future, t: nat)
    requires FieldsOk(f) && OneSettler(f) && t in f.threads && f.threads[t].Fire? && f.threads[t].rest != []
    ensures var g, r := Step(f, t), f.threads[t].reject;
      Waiting(g, r) == Waiting(f, r)[1..] && Waiting(g, !r) == Waiting(f, !r) && Sleeping(g) == Sleeping(f) && Waiting(f, r) == f.threads[t].rest
  {
    WinnerIs(f, t);
    var g := Step(f, t);
    assert HasWinner(g) && Winner(g) == g.threads[t];
  }

  lemma FireQueues(f: Future, g: Future, t: nat, r: bool)
    requires QueuesOk(f) && t in f.threads && t in g.threads && g.threads == f.threads[t := g.threads[t]]
    requires !f.threads[t].Appended? && !f.threads[t].Parked? && Waiting(f, r) != []
    requires Waiting(g, r) == Waiting(f, r)[1..] && Waiting(g, !r) == Waiting(f, !r) && Sleeping(g) == Sleeping(f)
    ensures QueuesOk(g)
  {
    hide Waiting, Sleeping;
    forall k: bool, i | 0 <= i < |Waiting(g, k)| ensures Waiting(g, k)[i] in g.threads && g.threads[Waiting(g, k)[i]] == Appended(k) {
      if k == r { assert Waiting(g, k)[i] == Waiting(f, k)[i + 1]; } else { assert Waiting(g, k)[i] == Waiting(f, k)[i]; }
    }
  }

  lemma FireHistory(f: Future, g: Future, t: nat, u: nat)
    requires Inv(f) && t in f.threads && f.threads[t].Fire? && f.threads[t].rest != [] && g == Step(f, t)
    requires SameSettlement(f, g) && u in f.threads
    requires var r := f.threads[t].reject;
      Waiting(g, r) == Waiting(f, r)[1..] && Waiting(g, !r) == Waiting(f, !r) && Sleeping(g) == Sleeping(f) && Waiting(f, r) == f.threads[t].rest
    ensures CallbackOk(g, u) && ActorOk(g, u)
  {
    InvParts(f);
    WinnerIs(f, t);
    var r, w := f.threads[t].reject, Waiting(f, f.threads[t].reject);
    var c := w[0];
    assert f.threads[c] == Appended(r) && CallbackOk(f, c) && ActorOk(f, c) && CallbackOk(f, u) && ActorOk(f, u);
    assert Distinct(w);
    assert w == [c] + w[1..] && c !in w[1..];
    assert forall x :: x in w <==> x == c || x in w[1..];
    hide Waiting, Sleeping, At, FieldsOk, OneSettler, MainOk, QueuesOk;
    if u == t {
      SettlerHistory(f, g, t);
    } else if u == c {
      assert RunsOf(g, c) == [f.threads[t].payload];
    } else {
      SameHistory(f, g, u);
    }
  }

  /** The settler hands the next parked actor to the scheduler. */
  lemma WakeKeeps(f: Future, t: nat)
    requires Inv(f) && t in f.threads && f.threads[t].Wake? && f.threads[t].rest != []
    ensures Inv(Step(f, t))
  {
    var g := Step(f, t);
    InvParts(f);
    WakeRest(f, t);
    assert g.threads.Keys == f.threads.Keys;
    hide Step, Waiting, Sleeping, QueuesOk, MainOk, FieldsOk, OneSettler, CallbackOk, ActorOk;
    forall u | u in g.threads ensures CallbackOk(g, u) && ActorOk(g, u) { WakeHistory(f, t, u); }
  }

  lemma WakeRest(f: Future, t: nat)
    requires FieldsOk(f) && OneSettler(f) && QueuesOk(f) && MainOk(f) && t in f.threads && f.threads[t].Wake? && f.threads[t].rest != []
    ensures var g := Step(f, t); SameSettlement(f, g) && OneSettler(g) && FieldsOk(g) && QueuesOk(g) && MainOk(g)
  {
    hide Waiting, Sleeping, At, FieldsOk, OneSettler, MainOk, QueuesOk, Stage, Winner;
    var g := Step(f, t);
    StagesAreApart(f.threads[t]);
    WakeStep(f, t);
    SameStage(f, g, t);
    SameFields(f, g);
    WakeLists(f, t);
    WakeQueues(f, g, t);
    SameMain(f, g, t);
  }

  lemma WakeHistory(f: Future, t: nat, u: nat)
    requires Inv(f) && t in f.threads && f.threads[t].Wake? && f.threads[t].rest != [] && u in f.threads
    requires SameSettlement(f, Step(f, t))
    ensures CallbackOk(Step(f, t), u) && ActorOk(Step(f, t), u)
  {
    var g, w := Step(f, t), Sleeping(f);
    InvParts(f);
    assert CallbackOk(f, u) && ActorOk(f, u);
    WakeStep(f, t);
    WakeLists(f, t);
    hide Waiting, Sleeping, At, FieldsOk, OneSettler, CallbackOk, ActorOk, MainOk, QueuesOk, Stage, Winner;
    if u == t { SettlerHistory(f, g, t); } else if u == w[0] { Woken(f, g, u); } else { SameHistory(f, g, u); }
  }

  lemma WakeStep(f: Future, t: nat)
    requires t in f.threads && f.threads[t].Wake? && f.threads[t].rest != []
    ensures var g, pc := Step(f, t), f.threads[t];
      && g == Goto(Scheduled(f, pc.rest[0]), t, Wake(pc.reject, pc.payload, pc.rest[1..]))
      && Stage(pc) == 7 && Stage(g.threads[t]) == 7
  {
  }

  lemma WakeLists(f: Future, t: nat)
    requires FieldsOk(f) && OneSettler(f) && QueuesOk(f) && t in f.threads && f.threads[t].Wake? && f.threads[t].rest != []
    ensures var g, w := Step(f, t), Sleeping(f);
      && w == f.threads[t].rest && Sleeping(g) == w[1..] && Waiting(g, false) == Waiting(f, false) && Waiting(g, true) == Waiting(f, true)
      && (forall x :: x in w <==> x == w[0] || x in w[1..]) && w[0] !in w[1..]
      && w[0] in f.threads && f.threads[w[0]] == Parked && At(g) >= 7
  {
    WinnerIs(f, t);
    var g, w := Step(f, t), Sleeping(f);
    assert HasWinner(g) && Winner(g) == g.threads[t];
    assert w == [w[0]] + w[1..];
  }

  lemma WakeQueues(f: Future, g: Future, t: nat)
    requires QueuesOk(f) && t in f.threads && t in g.threads && g.threads == f.threads[t := g.threads[t]]
    requires !f.threads[t].Appended? && !f.threads[t].Parked? && Sleeping(f) != []
    requires Waiting(g, false) == Waiting(f, false) && Waiting(g, true) == Waiting(f, true) && Sleeping(g) == Sleeping(f)[1..]
    ensures QueuesOk(g)
  {
    hide Waiting, Sleeping;
    forall i | 0 <= i < |Sleeping(g)| ensures Sleeping(g)[i] in g.threads && g.threads[Sleeping(g)[i]] == Parked {
      assert Sleeping(g)[i] == Sleeping(f)[i + 1];
    }
  }

  lemma Woken(f: Future, g: Future, c: nat)
    requires c in f.threads && c in g.threads && f.threads[c] == g.threads[c] == Parked && CallbackOk(f, c) && ActorOk(f, c)
    requires c in Sleeping(f) && c !in Sleeping(g) && At(g) >= 7 && Times(g, c) == Times(f, c) + 1 && RunsOf(g, c) == RunsOf(f, c)
    ensures CallbackOk(g, c) && ActorOk(g, c)
  {
    hide Sleeping, At;
  }

  // ----- Registrations -----

  /** What the attributes say about the settlement. */
  lemma Readings(f: Future)
    requires FieldsOk(f)
    ensures f.state == 0 <==> At(f) < 5
    ensures f.state != 0 ==> HasWinner(f) && ((f.state == 2) == Rejects(f))
    ensures forall k: bool :: Cbs(f, k).Drained? ==> HasWinner(f) && Rejects(f) == k && At(f) >= 3
    ensures f.waiters.Drained? ==> At(f) >= 7
    ensures forall k: bool :: HasWinner(f) && Rejects(f) == k && At(f) >= 2 ==> ResultOf(f, k) == Some(Payload(f))
  {
  }

  /** A step of a thread that is not the settler and changes no list. */
  lemma Still(f: Future, g: Future, t: nat)
    requires FieldsOk(f) && OneSettler(f) && t in f.threads && t in g.threads && g.threads == f.threads[t := g.threads[t]]
    requires g.winner == f.winner && SameAttributes(f, g) && Stage(f.threads[t]) == 0 && Stage(g.threads[t]) == 0
    ensures SameSettlement(f, g) && OneSettler(g) && FieldsOk(g)
    ensures Waiting(g, false) == Waiting(f, false) && Waiting(g, true) == Waiting(f, true) && Sleeping(g) == Sleeping(f)
  {
    hide Waiting, Sleeping, At, FieldsOk, OneSettler;
    SameStage(f, g, t);
    SameFields(f, g);
    SameLists(f, g, t);
  }

  lemma AppendKeeps(f: Future, t: nat)
    requires Inv(f) && t in f.threads && f.threads[t].Append?
    ensures Inv(Step(f, t))
  {
    InvParts(f);
    hide Waiting, Sleeping, At, FieldsOk, OneSettler, QueuesOk, MainOk, Step, CallbackOk, ActorOk, Stage;
    AppendStep(f, t);
    if Cbs(f, f.threads[t].onReject) != Open(f.threads[t].cur) {
      Retries(f, t, Listen(f.threads[t].onReject));
    } else {
      AppendDone(f, t);
    }
  }

  lemma AppendDone(f: Future, t: nat)
    requires Inv(f) && t in f.threads && f.threads[t].Append? && Cbs(f, f.threads[t].onReject) == Open(f.threads[t].cur)
    ensures Inv(Step(f, t))
  {
    InvParts(f);
    hide Waiting, Sleeping, At, FieldsOk, OneSettler, QueuesOk, MainOk, Step, CallbackOk, ActorOk, Stage, Cbs;
    var k, g := f.threads[t].onReject, Step(f, t);
    AppendStep(f, t);
    AppendSettlement(f, t);
    AppendLists(f, t);
    LongerQueue(f, g, t, k);
    SameMain(f, g, t);
    forall u | u in g.threads ensures CallbackOk(g, u) && ActorOk(g, u) {
      assert CallbackOk(f, u) && ActorOk(f, u);
      if u == t { JustRegistered(f, g, t, k); } else { OtherAppended(f, g, t, k, u); }
    }
  }

  lemma OtherAppended(f: Future, g: Future, t: nat, k: bool, u: nat)
    requires u in f.threads && u in g.threads && u != t && g.threads[u] == f.threads[u] && CallbackOk(f, u) && ActorOk(f, u)
    requires SameSettlement(f, g) && g.runs == f.runs && g.scheduled == f.scheduled
    requires Waiting(g, k) == Waiting(f, k) + [t] && Waiting(g, !k) == Waiting(f, !k) && Sleeping(g) == Sleeping(f)
    ensures CallbackOk(g, u) && ActorOk(g, u)
  {
    hide Waiting, Sleeping, At, CallbackOk, ActorOk;
    SameHistory(f, g, u);
  }

  /** A lost compare-and-swap: the thread looks at the list again. */
  lemma Retries(f: Future, t: nat, pc: Pc)
    requires Inv(f) && t in f.threads && (f.threads[t].Append? || f.threads[t].Park?) && (pc.Listen? || pc.ReadWaiters?)
    ensures Inv(Goto(f, t, pc))
  {
    InvParts(f);
    hide Waiting, Sleeping, At, FieldsOk, OneSettler, QueuesOk, MainOk, CallbackOk, ActorOk, Stage, InWait;
    var g := Goto(f, t, pc);
    assert CallbackOk(f, t) && ActorOk(f, t);
    Idle(pc);
    Idle(f.threads[t]);
    Still(f, g, t);
    RetryHistory(f, t, pc);
    SameMain(f, g, t);
    Rebuild(f, g, t);
  }

  lemma Idle(pc: Pc)
    ensures pc.Listen? || pc.ReadWaiters? || pc.Append? || pc.Park? || pc.FireNow? || pc.Fired? ==> Stage(pc) == 0 && !InWait(pc)
  {
  }

  lemma RetryHistory(f: Future, t: nat, pc: Pc)
    requires t in f.threads && (f.threads[t].Append? || f.threads[t].Park?) && (pc.Listen? || pc.ReadWaiters?)
    requires CallbackOk(f, t) && ActorOk(f, t)
    ensures CallbackOk(Goto(f, t, pc), t) && ActorOk(Goto(f, t, pc), t)
  {
    hide Waiting, Sleeping, At;
  }

  lemma AppendStep(f: Future, t: nat)
    requires t in f.threads && f.threads[t].Append?
    ensures var k, cur := f.threads[t].onReject, f.threads[t].cur;
      Step(f, t) == if Cbs(f, k) == Open(cur) then Goto(WithCbs(f, k, Open(cur + [t])), t, Appended(k)) else Goto(f, t, Listen(k))
  {
  }

  lemma AppendLists(f: Future, t: nat)
    requires QueuesOk(f) && t in f.threads && f.threads[t].Append? && Cbs(f, f.threads[t].onReject) == Open(f.threads[t].cur)
    requires SameSettlement(f, Step(f, t)) && (HasWinner(f) ==> Winner(Step(f, t)) == Winner(f))
    ensures var g, k := Step(f, t), f.threads[t].onReject;
      && Waiting(g, k) == Waiting(f, k) + [t] && Waiting(g, !k) == Waiting(f, !k) && Sleeping(g) == Sleeping(f)
      && t !in Waiting(f, k)
  {
    hide At, Winner, Step;
    AppendStep(f, t);
  }

  lemma AppendSettlement(f: Future, t: nat)
    requires FieldsOk(f) && OneSettler(f) && t in f.threads && f.threads[t].Append? && Cbs(f, f.threads[t].onReject) == Open(f.threads[t].cur)
    ensures var g := Step(f, t); FieldsOk(g) && OneSettler(g) && SameSettlement(f, g) && (HasWinner(f) ==> Winner(g) == Winner(f))
  {
    hide Step, At, OneSettler;
    AppendStep(f, t);
    SameStage(f, Step(f, t), t);
    NotWinner(f, t);
  }

  lemma NotWinner(f: Future, t: nat)
    requires FieldsOk(f) && t in f.threads && Stage(f.threads[t]) == 0
    ensures f.winner != Some(t)
  {
  }

  lemma LongerQueue(f: Future, g: Future, t: nat, k: bool)
    requires QueuesOk(f) && t in f.threads && g.threads == f.threads[t := Appended(k)] && !f.threads[t].Appended? && !f.threads[t].Parked?
    requires Waiting(g, k) == Waiting(f, k) + [t] && Waiting(g, !k) == Waiting(f, !k) && Sleeping(g) == Sleeping(f) && t !in Waiting(f, k)
    ensures QueuesOk(g)
  {
    hide Waiting, Sleeping;
    forall j: bool, i | 0 <= i < |Waiting(g, j)| ensures Waiting(g, j)[i] in g.threads && g.threads[Waiting(g, j)[i]] == Appended(j) {
      if j == k && i == |Waiting(f, k)| {} else { assert Waiting(g, j)[i] == Waiting(f, j)[i]; }
    }
  }

  lemma JustRegistered(f: Future, g: Future, t: nat, k: bool)
    requires t in f.threads && t in g.threads && f.threads[t].Append? && g.threads[t] == Appended(k)
    requires CallbackOk(f, t) && ActorOk(f, t) && t in Waiting(g, k) && RunsOf(g, t) == RunsOf(f, t) && Times(g, t) == Times(f, t)
    ensures CallbackOk(g, t) && ActorOk(g, t)
  {
    hide Waiting, At;
  }

  /** A callback registered too late for the drain is run by the thread that brings it. */
  lemma FireNowKeeps(f: Future, t: nat)
    requires Inv(f) && t in f.threads && f.threads[t].FireNow?
    ensures Inv(Step(f, t))
  {
    InvParts(f);
    hide Waiting, Sleeping, At, FieldsOk, OneSettler, QueuesOk, MainOk, CallbackOk, ActorOk, Stage, InWait, Step;
    assert CallbackOk(f, t) && ActorOk(f, t);
    Readings(f);
    FireNowStep(f, t);
    var g := Step(f, t);
    Idle(f.threads[t]);
    Idle(g.threads[t]);
    Still(f, g, t);
    FireNowHistory(f, g, t);
    SameMain(f, g, t);
    Rebuild(f, g, t);
  }

  lemma FireNowStep(f: Future, t: nat)
    requires t in f.threads && f.threads[t].FireNow? && CallbackOk(f, t)
    requires forall k: bool :: HasWinner(f) && Rejects(f) == k && At(f) >= 2 ==> ResultOf(f, k) == Some(Payload(f))
    ensures HasWinner(f) && Step(f, t) == Goto(Ran(f, t, Payload(f)), t, Fired(f.threads[t].onReject))
  {
    hide At;
  }

  lemma FireNowHistory(f: Future, g: Future, t: nat)
    requires t in f.threads && f.threads[t].FireNow? && CallbackOk(f, t) && ActorOk(f, t) && HasWinner(f) && SameSettlement(f, g)
    requires g == Goto(Ran(f, t, Payload(f)), t, Fired(f.threads[t].onReject))
    ensures CallbackOk(g, t) && ActorOk(g, t)
  {
    hide Waiting, Sleeping, At;
  }

  lemma LookKeeps(f: Future, t: nat)
    requires Inv(f) && t in f.threads && (f.threads[t].Look? || f.threads[t].Listen?)
    ensures Inv(Step(f, t))
  {
    InvParts(f);
    hide Waiting, Sleeping, At, FieldsOk, OneSettler, QueuesOk, MainOk, Step, Stage, CallbackOk, ActorOk;
    assert CallbackOk(f, t) && ActorOk(f, t);
    var g := Step(f, t);
    LookStep(f, t);
    Still(f, g, t);
    Readings(f);
    LookHistory(f, g, t);
    SameMain(f, g, t);
    Rebuild(f, g, t);
  }

  lemma LookStep(f: Future, t: nat)
    requires t in f.threads && (f.threads[t].Look? || f.threads[t].Listen?)
    ensures var pc, k := Step(f, t).threads[t], f.threads[t].onReject;
      && Step(f, t) == Goto(f, t, pc) && Stage(pc) == 0 == Stage(f.threads[t]) && !InWait(pc) && !pc.Mark?
      && (|| pc.Listen? || pc.Append? || (pc == Skipped(k) && f.state != 0 && (f.state == 2) != k)
          || (pc == FireNow(k) && (Cbs(f, k).Drained? || (f.state != 0 && (f.state == 2) == k))))
  {
  }

  lemma LookHistory(f: Future, g: Future, t: nat)
    requires t in f.threads && t in g.threads && (f.threads[t].Look? || f.threads[t].Listen?)
    requires CallbackOk(f, t) && ActorOk(f, t) && SameSettlement(f, g) && g.runs == f.runs && g.scheduled == f.scheduled
    requires var pc, k := g.threads[t], f.threads[t].onReject;
      || pc.Listen? || pc.Append? || (pc == FireNow(k) && HasWinner(f) && Rejects(f) == k && At(f) >= 2)
      || (pc == Skipped(k) && HasWinner(f) && Rejects(f) != k)
    ensures CallbackOk(g, t) && ActorOk(g, t)
  {
    hide Waiting, Sleeping, At;
  }

  // ----- Waiting actors -----

  lemma ParkKeeps(f: Future, t: nat)
    requires Inv(f) && t in f.threads && f.threads[t].Park?
    ensures Inv(Step(f, t))
  {
    InvParts(f);
    assert CallbackOk(f, t) && ActorOk(f, t);
    hide Waiting, Sleeping, At, FieldsOk, OneSettler, QueuesOk, MainOk, Step, CallbackOk, ActorOk, Stage;
    ParkStep(f, t);
    if f.waiters != Open(f.threads[t].cur) { Retries(f, t, ReadWaiters); } else { ParkDone(f, t); }
  }

  lemma ParkDone(f: Future, t: nat)
    requires Inv(f) && t in f.threads && f.threads[t].Park? && f.waiters == Open(f.threads[t].cur)
    ensures Inv(Step(f, t))
  {
    var g := Step(f, t);
    InvParts(f);
    hide Waiting, Sleeping, At, FieldsOk, OneSettler, QueuesOk, MainOk, Step, CallbackOk, ActorOk, Stage;
    ParkStep(f, t);
    SameStage(f, g, t);
    ParkLists(f, t);
    ParkQueues(f, g, t);
    SameMain(f, g, t);
    forall u | u in g.threads ensures CallbackOk(g, u) && ActorOk(g, u) {
      assert CallbackOk(f, u) && ActorOk(f, u);
      if u == t { JustParked(f, g, t); } else { SameHistory(f, g, u); }
    }
  }

  lemma ParkStep(f: Future, t: nat)
    requires t in f.threads && f.threads[t].Park?
    ensures var cur := f.threads[t].cur;
      Step(f, t) == if f.waiters == Open(cur) then Goto(f.(waiters := Open(cur + [t])), t, Parked) else Goto(f, t, ReadWaiters)
  {
  }

  lemma ParkLists(f: Future, t: nat)
    requires FieldsOk(f) && QueuesOk(f) && t in f.threads && f.threads[t].Park? && f.waiters == Open(f.threads[t].cur)
    requires SameSettlement(f, Step(f, t))
    ensures var g := Step(f, t);
      && FieldsOk(g) && Sleeping(g) == Sleeping(f) + [t] && t !in Sleeping(f)
      && Waiting(g, false) == Waiting(f, false) && Waiting(g, true) == Waiting(f, true)
  {
    hide Step;
    ParkStep(f, t);
    NotWinner(f, t);
  }

  lemma ParkQueues(f: Future, g: Future, t: nat)
    requires QueuesOk(f) && t in f.threads && g.threads == f.threads[t := Parked] && !f.threads[t].Appended? && !f.threads[t].Parked?
    requires Waiting(g, false) == Waiting(f, false) && Waiting(g, true) == Waiting(f, true) && Sleeping(g) == Sleeping(f) + [t] && t !in Sleeping(f)
    ensures QueuesOk(g)
  {
    hide Waiting, Sleeping;
    forall i | 0 <= i < |Sleeping(g)| ensures Sleeping(g)[i] in g.threads && g.threads[Sleeping(g)[i]] == Parked {
      if i < |Sleeping(f)| { assert Sleeping(g)[i] == Sleeping(f)[i]; }
    }
  }

  lemma JustParked(f: Future, g: Future, t: nat)
    requires t in f.threads && t in g.threads && f.threads[t].Park? && g.threads[t] == Parked
    requires CallbackOk(f, t) && ActorOk(f, t) && t in Sleeping(g) && RunsOf(g, t) == RunsOf(f, t) && Times(g, t) == Times(f, t)
    ensures CallbackOk(g, t) && ActorOk(g, t)
  {
    hide Sleeping, At;
  }

  lemma AskKeeps(f: Future, t: nat)
    requires Inv(f) && t in f.threads && (f.threads[t].Ask? || f.threads[t].ReadWaiters?)
    ensures Inv(Step(f, t))
  {
    InvParts(f);
    hide Waiting, Sleeping, At, FieldsOk, OneSettler, QueuesOk, MainOk, Step, Stage, CallbackOk, ActorOk;
    assert CallbackOk(f, t) && ActorOk(f, t);
    var g := Step(f, t);
    AskStep(f, t);
    Still(f, g, t);
    Readings(f);
    AskHistory(f, g, t);
    SameMain(f, g, t);
    Rebuild(f, g, t);
  }

  lemma AskStep(f: Future, t: nat)
    requires t in f.threads && (f.threads[t].Ask? || f.threads[t].ReadWaiters?)
    ensures var pc := Step(f, t).threads[t];
      && Step(f, t) == Goto(f, t, pc) && Stage(pc) == 0 == Stage(f.threads[t]) && !InWait(pc) && !pc.Mark?
      && (pc.ReadWaiters? || pc.Park? || (pc == ScheduleSelf && (f.state != 0 || f.waiters.Drained?)))
  {
  }

  lemma AskHistory(f: Future, g: Future, t: nat)
    requires t in f.threads && t in g.threads && (f.threads[t].Ask? || f.threads[t].ReadWaiters?)
    requires CallbackOk(f, t) && ActorOk(f, t) && At(g) == At(f) && g.runs == f.runs && g.scheduled == f.scheduled
    requires g.threads[t].ReadWaiters? || g.threads[t].Park? || (g.threads[t] == ScheduleSelf && At(f) >= 5)
    ensures CallbackOk(g, t) && ActorOk(g, t)
  {
    hide Waiting, Sleeping, At;
  }

  lemma ScheduleSelfKeeps(f: Future, t: nat)
    requires Inv(f) && t in f.threads && f.threads[t].ScheduleSelf?
    ensures Inv(Step(f, t))
  {
    InvParts(f);
    hide Waiting, Sleeping, At, FieldsOk, OneSettler, QueuesOk, MainOk, Step, CallbackOk, ActorOk;
    assert CallbackOk(f, t) && ActorOk(f, t);
    var g := Goto(Scheduled(f, t), t, SelfScheduled);
    assert Step(f, t) == g by { SelfStep(f, t); }
    Still(f, g, t);
    SelfHistory(f, g, t);
    SameMain(f, g, t);
    Rebuild(f, g, t);
  }

  lemma SelfStep(f: Future, t: nat)
    requires t in f.threads && f.threads[t].ScheduleSelf?
    ensures Step(f, t) == Goto(Scheduled(f, t), t, SelfScheduled)
  {
  }

  lemma SelfHistory(f: Future, g: Future, t: nat)
    requires t in f.threads && f.threads[t].ScheduleSelf? && CallbackOk(f, t) && ActorOk(f, t)
    requires g == Goto(Scheduled(f, t), t, SelfScheduled) && At(g) == At(f)
    ensures CallbackOk(g, t) && ActorOk(g, t)
  {
    hide Waiting, Sleeping, At;
  }

  // ----- The main thread -----

  lemma MainKeeps(f: Future, t: nat)
    requires Inv(f) && t in f.threads && (f.threads[t].Mark? || InWait(f.threads[t]))
    ensures Inv(Step(f, t))
  {
    InvParts(f);
    hide Waiting, Sleeping, At, FieldsOk, OneSettler, QueuesOk, MainOk, Step, CallbackOk, ActorOk, Stage;
    assert CallbackOk(f, t) && ActorOk(f, t);
    var g := Step(f, t);
    if g != f {
      MainStep(f, t);
      Still(f, g, t);
      Readings(f);
      OneMain(f, g, t);
      MainHistory(f, g, t);
      Rebuild(f, g, t);
    }
  }

  lemma MainIs(f: Future, t: nat)
    requires t in f.threads
    ensures f.threads[t].Mark? ==> Step(f, t) == Goto(f.(mainWaiting := true), t, Poll)
    ensures f.threads[t].Poll? ==> Step(f, t) == Goto(f, t, if f.state == 0 then Blocked else Unmark)
    ensures f.threads[t].Blocked? ==> Step(f, t) == if f.permits == 0 then f else Goto(f.(permits := f.permits - 1), t, Poll)
    ensures f.threads[t].Unmark? ==> Step(f, t) == Goto(f.(mainWaiting := false), t, Done)
  {
  }

  lemma MainStep(f: Future, t: nat)
    requires t in f.threads && (f.threads[t].Mark? || InWait(f.threads[t]))
    ensures var g := Step(f, t);
      && g.threads == f.threads[t := g.threads[t]] && g.winner == f.winner && SameAttributes(f, g) && g.runs == f.runs && g.scheduled == f.scheduled
      && Stage(f.threads[t]) == 0 == Stage(g.threads[t]) && (InWait(g.threads[t]) || g.threads[t].Done?)
  {
    hide Step;
    MainIs(f, t);
  }

  lemma MainHistory(f: Future, g: Future, t: nat)
    requires t in f.threads && t in g.threads && (f.threads[t].Mark? || InWait(f.threads[t])) && (InWait(g.threads[t]) || g.threads[t].Done?)
    requires CallbackOk(f, t) && ActorOk(f, t) && g.runs == f.runs && g.scheduled == f.scheduled
    ensures CallbackOk(g, t) && ActorOk(g, t)
  {
    hide Waiting, Sleeping, At;
  }

  lemma WaitStep(f: Future, t: nat)
    requires t in f.threads && (f.threads[t].Mark? || InWait(f.threads[t]))
    ensures var g := Step(f, t); var pc := g.threads[t];
      && (pc.Done? || InWait(pc)) && (InWait(pc) ==> g.mainWaiting == (f.threads[t].Mark? || f.mainWaiting))
      && (forall u | u in f.threads && u != t :: g.threads[u] == f.threads[u])
      && (pc.Blocked? ==> g.permits == f.permits && (f.state == 0 || f.threads[t].Blocked?))
  {
    hide Step;
    MainIs(f, t);
  }

  lemma OneMain(f: Future, g: Future, t: nat)
    requires MainOk(f) && t in f.threads && (f.threads[t].Mark? || InWait(f.threads[t])) && g == Step(f, t)
    requires At(g) == At(f) && (f.state == 0 <==> At(f) < 5)
    ensures MainOk(g)
  {
    hide At;
    WaitStep(f, t);
    hide Step;
    forall u | u in f.threads && u != t ensures !f.threads[u].Mark? && !InWait(f.threads[u]) {}
  }

  lemma TakeKeeps(f: Future, t: nat)
    requires Inv(f) && t in f.threads && !CanAdvance(f, f.threads[t])
    requires f.threads[t].Drain? || f.threads[t].Take? || f.threads[t].DrainWaiters? || f.threads[t].TakeWaiters?
    ensures Inv(Step(f, t))
  {
    InvParts(f);
    assert CallbackOk(f, t) && ActorOk(f, t);
    WinnerIs(f, t);
    hide Inv, MainOk, QueuesOk, FieldsOk, OneSettler, At, HasWinner, Waiting, Sleeping;
    Moves(f, t, Step(f, t).threads[t]);
  }

  /** Every step of every thread keeps the invariant. */
  lemma StepKeeps(f: Future, t: nat)
    requires Inv(f) && t in f.threads
    ensures Inv(Step(f, t))
  {
    var pc := f.threads[t];
    hide Inv;
    if CanAdvance(f, pc) { AdvanceKeeps(f, t); }
    else if pc.Claim? { ClaimKeeps(f, t); }
    else if pc.Fire? { FireKeeps(f, t); }
    else if pc.Wake? { WakeKeeps(f, t); }
    else if pc.Drain? || pc.Take? || pc.DrainWaiters? || pc.TakeWaiters? { TakeKeeps(f, t); }
    else if pc.Look? || pc.Listen? { LookKeeps(f, t); }
    else if pc.Append? { AppendKeeps(f, t); }
    else if pc.FireNow? { FireNowKeeps(f, t); }
    else if pc.Ask? || pc.ReadWaiters? { AskKeeps(f, t); }
    else if pc.Park? { ParkKeeps(f, t); }
    else if pc.ScheduleSelf? { ScheduleSelfKeeps(f, t); }
    else if pc.Mark? || InWait(pc) { MainKeeps(f, t); }
  }

  lemma {:induction false} RunKeeps(f: Future, schedule: seq<nat>)
    requires Inv(f) && forall i :: 0 <= i < |schedule| ==> schedule[i] in f.threads
    ensures Inv(Run(f, schedule)) && Run(f, schedule).threads.Keys == f.threads.Keys
    decreases |schedule|
  {
    hide Inv, Step;
    if schedule != [] {
      StepKeeps(f, schedule[0]);
      RunKeeps(Step(f, schedule[0]), schedule[1..]);
    }
  }

  // ----- What holds in every run -----

  /** Every thread has finished its operation, or is the main thread asleep. */
  predicate Quiet(f: Future) {
    forall t | t in f.threads ::
      var pc := f.threads[t];
      pc.Settled? || pc.Lost? || pc.Appended? || pc.Fired? || pc.Skipped? || pc.Parked? || pc.SelfScheduled? || pc.Done?
      || (pc.Blocked? && f.permits == 0)
  }

  predicate Registered(pc: Pc, onReject: bool) {
    pc == Appended(onReject) || pc == Fired(onReject) || pc == Skipped(onReject)
  }

  lemma RunInv(f: Future, schedule: seq<nat>)
    requires Init(f) && forall i :: 0 <= i < |schedule| ==> schedule[i] in f.threads
    ensures Inv(Run(f, schedule))
  {
    hide Inv, Run, Init;
    InitInv(f);
    RunKeeps(f, schedule);
  }

  lemma QuietWinner(g: Future)
    requires FieldsOk(g) && Quiet(g)
    ensures g.winner == None <==> At(g) == 0
    ensures g.winner.Some? ==> HasWinner(g) && Winner(g).Settled? && At(g) == 8
    ensures forall k: bool :: HasWinner(g) && k == Rejects(g) ==> Waiting(g, k) == []
    ensures HasWinner(g) ==> Sleeping(g) == []
  {
  }

  lemma QuietCallback(g: Future, t: nat, k: bool)
    requires FieldsOk(g) && Quiet(g) && t in g.threads && Registered(g.threads[t], k) && CallbackOk(g, t)
    ensures g.winner == None ==> RunsOf(g, t) == []
    ensures g.winner.Some? ==> HasWinner(g) && Winner(g).Settled? && RunsOf(g, t) == if Rejects(g) == k then [Payload(g)] else []
  {
    QuietWinner(g);
    hide Waiting, At, FieldsOk, Quiet, Sleeping;
  }

  /** Callbacks run exactly once, whatever the interleaving: once every operation is over, a
      settled future has run each callback of its kind once, with what the one winner brought,
      and none of the other kind; an unsettled one has run none. */
  lemma CallbacksRunExactlyOnce(f: Future, schedule: seq<nat>, t: nat, onReject: bool)
    requires Init(f) && (forall i :: 0 <= i < |schedule| ==> schedule[i] in f.threads)
    requires var g := Run(f, schedule); Quiet(g) && t in g.threads && Registered(g.threads[t], onReject)
    ensures var g := Run(f, schedule);
      && (g.winner == None ==> RunsOf(g, t) == [])
      && (g.winner.Some? ==>
            HasWinner(g) && Winner(g).Settled? && RunsOf(g, t) == if Rejects(g) == onReject then [Payload(g)] else [])
  {
    hide Init, Run, Quiet, Registered, FieldsOk, QueuesOk, OneSettler, MainOk, CallbackOk, ActorOk, At, Waiting;
    RunInv(f, schedule);
    var g := Run(f, schedule);
    assert CallbackOk(g, t);
    QuietCallback(g, t, onReject);
  }

  /** One settler wins: any two threads past the claim are the same. */
  lemma OneSettlerWins(f: Future, schedule: seq<nat>, t: nat, u: nat)
    requires Init(f) && (forall i :: 0 <= i < |schedule| ==> schedule[i] in f.threads)
    requires var g := Run(f, schedule); t in g.threads && u in g.threads && Stage(g.threads[t]) > 0 && Stage(g.threads[u]) > 0
    ensures t == u
  {
    hide Init, Run, FieldsOk, QueuesOk, MainOk, CallbackOk, ActorOk;
    RunInv(f, schedule);
  }

  /** A thread that reads a settled state finds the result written and every callback that was
      appended for it already run. */
  lemma SettledMeansRun(f: Future, schedule: seq<nat>, t: nat)
    requires Init(f) && (forall i :: 0 <= i < |schedule| ==> schedule[i] in f.threads)
    requires var g := Run(f, schedule); g.state != 0 && t in g.threads && g.threads[t] == Appended(g.state == 2)
    ensures var g := Run(f, schedule);
      HasWinner(g) && ResultOf(g, g.state == 2) == Some(Payload(g)) && RunsOf(g, t) == [Payload(g)]
  {
    hide Init, Run, FieldsOk, QueuesOk, OneSettler, MainOk, CallbackOk, ActorOk, At, Waiting;
    RunInv(f, schedule);
    var g := Run(f, schedule);
    assert CallbackOk(g, t);
    Readings(g);
    SettledCallback(g, t);
  }

  lemma SettledCallback(g: Future, t: nat)
    requires FieldsOk(g) && g.state != 0 && t in g.threads && g.threads[t] == Appended(g.state == 2) && CallbackOk(g, t)
    ensures HasWinner(g) && RunsOf(g, t) == [Payload(g)]
  {
    Readings(g);
    assert At(g) >= 5;
    assert t !in Waiting(g, g.state == 2);
  }

  /** No waiting actor is lost: once every operation is over, an actor that yielded on a settled
      future was handed to the scheduler exactly once, on a pending one not at all. */
  lemma ActorsWakeExactlyOnce(f: Future, schedule: seq<nat>, t: nat)
    requires Init(f) && (forall i :: 0 <= i < |schedule| ==> schedule[i] in f.threads)
    requires var g := Run(f, schedule); Quiet(g) && t in g.threads && (g.threads[t].Parked? || g.threads[t].SelfScheduled?)
    ensures var g := Run(f, schedule); Times(g, t) == if g.winner == None then 0 else 1
  {
    hide Init, Run, Quiet, FieldsOk, QueuesOk, OneSettler, MainOk, CallbackOk, At, Waiting, Sleeping;
    RunInv(f, schedule);
    var g := Run(f, schedule);
    assert ActorOk(g, t);
    QuietWinner(g);
  }

  /** The main thread is never left asleep: once the settler has passed its notify, the semaphore
      lets the main thread through. */
  lemma MainIsNotLeftAsleep(f: Future, schedule: seq<nat>, t: nat)
    requires Init(f) && (forall i :: 0 <= i < |schedule| ==> schedule[i] in f.threads)
    requires var g := Run(f, schedule); t in g.threads && g.threads[t].Blocked? && At(g) >= 6
    ensures var g := Run(f, schedule);
      g.permits > 0 && Step(g, t).threads[t] == Poll && Step(Step(g, t), t).threads[t] == Unmark
  {
    hide Init, Run, FieldsOk, QueuesOk, OneSettler, CallbackOk, ActorOk, At, Step;
    RunInv(f, schedule);
    var g := Run(f, schedule);
    assert MainOk(g) && g.permits > 0;
    Readings(g);
    MainIs(g, t);
    MainIs(Step(g, t), t);
  }

  /** So at quiescence a main thread that is asleep waits for a future nobody has claimed. */
  lemma AsleepMeansPending(f: Future, schedule: seq<nat>, t: nat)
    requires Init(f) && (forall i :: 0 <= i < |schedule| ==> schedule[i] in f.threads)
    requires var g := Run(f, schedule); Quiet(g) && t in g.threads && g.threads[t].Blocked?
    ensures Run(f, schedule).winner == None
  {
    hide Init, Run, FieldsOk, QueuesOk, OneSettler, CallbackOk, ActorOk, At, Waiting, Sleeping;
    RunInv(f, schedule);
    var g := Run(f, schedule);
    assert MainOk(g) && g.permits == 0;
    QuietWinner(g);
  }
}
