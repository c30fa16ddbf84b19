/** Operations on a future end. Compare-and-swap loops may have to be tried again, but each failure is some
    other operation's success, and there are only so many of those. */
module Progress {
  import opened Futures

  // ----- What a thread has left to do -----

  function Length(c: Cell): nat { if c.Open? then |c.items| else 0 }

  /** More than all other threads together lose by one successful swap or notify. */
  function Share(n: nat): (k: nat)
    ensures k >= 4
  {
    4 * n + 4
  }

  /** Steps a thread has left at most, if nobody interferes, with a share for each change it makes to what
      the others read. A list read that is out of date costs two more. */
  function Rank(f: Future, pc: Pc): nat {
    var k, w := Share(|f.threads|), Length(f.waiters);
    match pc
    case Claim(r, _) => Length(Cbs(f, r)) + w + 3 * k + 7
    case Write(r, _) => Length(Cbs(f, r)) + w + 3 * k + 6
    case Drain(r, _) => Length(Cbs(f, r)) + w + 3 * k + 5
    case Take(r, _, cur) => if Cbs(f, r) == Open(cur) then |cur| + w + 3 * k + 4 else Length(Cbs(f, r)) + w + 3 * k + 6
    case Fire(_, _, rest) => |rest| + w + 2 * k + 4
    case Publish(_, _) => w + 2 * k + 3
    case Notify(_, _) => w + 2 * k + 2
    case DrainWaiters(_, _) => w + k + 2
    case TakeWaiters(_, _, cur) => if f.waiters == Open(cur) then |cur| + k + 1 else w + k + 3
    case Wake(_, _, rest) => |rest| + 1
    case Look(_) => k + 3
    case Listen(_) => k + 2
    case Append(r, cur) => if Cbs(f, r) == Open(cur) then k + 1 else k + 3
    case FireNow(_) => 1
    case Ask => k + 3
    case ReadWaiters => k + 2
    case Park(cur) => if f.waiters == Open(cur) then k + 1 else k + 3
    case ScheduleSelf => 1
    case Mark => 2 * f.permits + 4
    case Poll => 2 * f.permits + 3
    case Blocked => 2 * f.permits + 2
    case Unmark => 1
    case _ => 0
  }

  /** An operation is over. */
  predicate Over(pc: Pc) {
    pc.Settled? || pc.Lost? || pc.Appended? || pc.Fired? || pc.Skipped? || pc.Parked? || pc.SelfScheduled? || pc.Done?
  }

  predicate Asleep(f: Future, pc: Pc) { pc.Blocked? && f.permits == 0 }

  datatype Kind = Settling | Registering | Yielding | Blocking

  function KindOf(pc: Pc): Kind {
    match pc
    case Look(_) => Registering
    case Listen(_) => Registering
    case Append(_, _) => Registering
    case FireNow(_) => Registering
    case Appended(_) => Registering
    case Fired(_) => Registering
    case Skipped(_) => Registering
    case Ask => Yielding
    case ReadWaiters => Yielding
    case Park(_) => Yielding
    case ScheduleSelf => Yielding
    case Parked => Yielding
    case SelfScheduled => Yielding
    case Mark => Blocking
    case Poll => Blocking
    case Blocked => Blocking
    case Unmark => Blocking
    case Done => Blocking
    case _ => Settling
  }

  /** What an operation was called with. */
  function Given(pc: Pc): (bool, Value) {
    match KindOf(pc)
    case Settling => if pc.Lost? then (false, 0) else (pc.reject, pc.payload)
    case Registering => (pc.onReject, 0)
    case _ => (false, 0)
  }

  /** An operation goes on as it was called; only a claim can be lost, and only to a winner. */
  predicate Carries(f: Future, was: Pc, pc: Pc) {
    pc == was || (!pc.Claim? && if pc.Lost? then was.Claim? && f.winner.Some? else Given(pc) == Given(was))
  }

  /** Whether a step changed something that other threads read before they swap or sleep. */
  predicate Touches(f: Future, g: Future) {
    g.thenCbs != f.thenCbs || g.catchCbs != f.catchCbs || g.waiters != f.waiters || g.permits > f.permits
  }

  /** A step that changes nothing is taken only by a thread whose operation is over, or asleep; any other
      brings it nearer to its end, and by a whole share if it changes what other threads read. */
  predicate Brings(f: Future, t: nat)
    requires t in f.threads
  {
    var g, pc := Step(f, t), f.threads[t];
    && (Over(pc) || Asleep(f, pc) ==> g == f)
    && (!Over(pc) && !Asleep(f, pc) ==>
          && g.threads[t] != pc && Rank(g, g.threads[t]) < Rank(f, pc)
          && (Touches(f, g) ==> Rank(g, g.threads[t]) + Share(|f.threads|) <= Rank(f, pc)))
    && g.threads == f.threads[t := g.threads[t]] && |g.threads| == |f.threads| && KindOf(g.threads[t]) == KindOf(pc) && Carries(f, pc, g.threads[t])
  }

  lemma StepBrings(f: Future, t: nat)
    requires t in f.threads
    ensures Brings(f, t)
  {
    hide Brings, Rank, Step, KindOf;
    var pc := f.threads[t];
    if Over(pc) || Asleep(f, pc) { OverStays(f, t); OverBrings(f, t); }
    else if pc.Claim? || pc.Write? { SettlingBrings(f, t); }
    else if pc.Drain? || pc.Take? { DrainingBrings(f, t); }
    else if pc.Fire? { FiringBrings(f, t); }
    else if pc.Publish? || pc.Notify? { PublishingBrings(f, t); }
    else if pc.DrainWaiters? || pc.TakeWaiters? { TakingBrings(f, t); }
    else if pc.Wake? { WakingBrings(f, t); }
    else if pc.Look? || pc.Listen? { ListeningBrings(f, t); }
    else if pc.Append? { AppendingBrings(f, t); }
    else if pc.FireNow? { FiringNowBrings(f, t); }
    else if pc.Ask? || pc.ReadWaiters? { AskingBrings(f, t); }
    else if pc.Park? { ParkingBrings(f, t); }
    else if pc.ScheduleSelf? { SchedulingBrings(f, t); }
    else if pc.Mark? || pc.Poll? { MarkingBrings(f, t); }
    else if pc.Blocked? { BlockedBrings(f, t); }
    else { UnmarkBrings(f, t); }
  }

  lemma OverStays(f: Future, t: nat)
    requires t in f.threads && (Over(f.threads[t]) || Asleep(f, f.threads[t]))
    ensures Step(f, t) == f
  {
  }

  lemma SameShare(f: Future, g: Future)
    requires f.threads.Keys == g.threads.Keys
    ensures |f.threads| == |g.threads|
  {
    assert |f.threads.Keys| == |f.threads| && |g.threads.Keys| == |g.threads|;
  }

  lemma GotoBrings(f: Future, h: Future, t: nat, pc: Pc)
    requires t in f.threads && h.threads == f.threads && Step(f, t) == Goto(h, t, pc)
    requires var was := f.threads[t];
      && !Over(was) && !Asleep(f, was) && pc != was && KindOf(pc) == KindOf(was) && Carries(f, was, pc)
      && Rank(h, pc) < Rank(f, was) && (Touches(f, h) ==> Rank(h, pc) + Share(|f.threads|) <= Rank(f, was))
    ensures Brings(f, t)
  {
    hide Step, KindOf, Over;
    var g := Goto(h, t, pc);
    SameShare(f, g);
    assert Rank(g, pc) == Rank(h, pc) by { hide Share; }
    hide Rank, Share, Asleep;
  }

  lemma OverBrings(f: Future, t: nat)
    requires t in f.threads && Step(f, t) == f && (Over(f.threads[t]) || Asleep(f, f.threads[t]))
    ensures Brings(f, t)
  {
    hide Step, KindOf, Over, Rank;
  }

  lemma SettlingBrings(f: Future, t: nat)
    requires t in f.threads && (f.threads[t].Claim? || f.threads[t].Write?)
    ensures Brings(f, t)
  {
    hide Brings, Goto, Share;
    var pc := f.threads[t];
    if pc.Write? {
      GotoBrings(f, if pc.reject then f.(error := Some(pc.payload)) else f.(value := Some(pc.payload)), t, Drain(pc.reject, pc.payload));
    } else if f.winner == None {
      GotoBrings(f, f.(winner := Some(t)), t, Write(pc.reject, pc.payload));
    } else {
      GotoBrings(f, f, t, Lost);
    }
  }

  lemma DrainingBrings(f: Future, t: nat)
    requires t in f.threads && (f.threads[t].Drain? || f.threads[t].Take?)
    ensures Brings(f, t)
  {
    hide Brings, Goto, Share;
    var pc := f.threads[t];
    var list := Cbs(f, pc.reject);
    if pc.Drain? {
      GotoBrings(f, f, t, if list.Drained? then Fire(pc.reject, pc.payload, []) else Take(pc.reject, pc.payload, list.items));
    } else if list == Open(pc.cur) {
      GotoBrings(f, WithCbs(f, pc.reject, Drained), t, Fire(pc.reject, pc.payload, pc.cur));
    } else {
      GotoBrings(f, f, t, Drain(pc.reject, pc.payload));
    }
  }

  lemma FiringBrings(f: Future, t: nat)
    requires t in f.threads && f.threads[t].Fire?
    ensures Brings(f, t)
  {
    hide Brings, Goto, Share, Ran;
    var pc := f.threads[t];
    if pc.rest == [] {
      GotoBrings(f, f, t, Publish(pc.reject, pc.payload));
    } else {
      RanIs(f, pc.rest[0], pc.payload);
      GotoBrings(f, Ran(f, pc.rest[0], pc.payload), t, Fire(pc.reject, pc.payload, pc.rest[1..]));
    }
  }

  lemma PublishingBrings(f: Future, t: nat)
    requires t in f.threads && (f.threads[t].Publish? || f.threads[t].Notify?)
    ensures Brings(f, t)
  {
    hide Brings, Goto, Share;
    var pc := f.threads[t];
    if pc.Publish? {
      GotoBrings(f, f.(state := if pc.reject then 2 else 1), t, Notify(pc.reject, pc.payload));
    } else {
      GotoBrings(f, if f.mainWaiting then f.(permits := f.permits + 1) else f, t, DrainWaiters(pc.reject, pc.payload));
    }
  }

  lemma TakingBrings(f: Future, t: nat)
    requires t in f.threads && (f.threads[t].DrainWaiters? || f.threads[t].TakeWaiters?)
    ensures Brings(f, t)
  {
    hide Brings, Goto, Share;
    var pc := f.threads[t];
    if pc.DrainWaiters? {
      GotoBrings(f, f, t, if f.waiters.Drained? then Wake(pc.reject, pc.payload, []) else TakeWaiters(pc.reject, pc.payload, f.waiters.items));
    } else if f.waiters == Open(pc.cur) {
      GotoBrings(f, f.(waiters := Drained), t, Wake(pc.reject, pc.payload, pc.cur));
    } else {
      GotoBrings(f, f, t, DrainWaiters(pc.reject, pc.payload));
    }
  }

  lemma WakingBrings(f: Future, t: nat)
    requires t in f.threads && f.threads[t].Wake?
    ensures Brings(f, t)
  {
    hide Brings, Goto, Share, Scheduled;
    var pc := f.threads[t];
    if pc.rest == [] {
      GotoBrings(f, f, t, Settled(pc.reject, pc.payload));
    } else {
      ScheduledIs(f, pc.rest[0]);
      GotoBrings(f, Scheduled(f, pc.rest[0]), t, Wake(pc.reject, pc.payload, pc.rest[1..]));
    }
  }

  lemma RanIs(f: Future, u: nat, v: Value)
    ensures Ran(f, u, v) == f.(runs := Ran(f, u, v).runs)
  {
  }

  lemma ScheduledIs(f: Future, u: nat)
    ensures Scheduled(f, u) == f.(scheduled := Scheduled(f, u).scheduled)
  {
  }

  lemma RegisterIs(f: Future, t: nat)
    requires t in f.threads
    ensures var pc := f.threads[t];
      && (pc.Look? ==> Step(f, t) == Goto(f, t, if f.state == 0 then Listen(pc.onReject)
                                               else if (f.state == 2) == pc.onReject then FireNow(pc.onReject) else Skipped(pc.onReject)))
      && (pc.Listen? ==> Step(f, t) == Goto(f, t, if Cbs(f, pc.onReject).Drained? then FireNow(pc.onReject)
                                                 else Append(pc.onReject, Cbs(f, pc.onReject).items)))
      && (pc.Append? ==> Step(f, t) == if Cbs(f, pc.onReject) == Open(pc.cur)
                                       then Goto(WithCbs(f, pc.onReject, Open(pc.cur + [t])), t, Appended(pc.onReject))
                                       else Goto(f, t, Listen(pc.onReject)))
      && (pc.FireNow? ==> Step(f, t) == Goto(Ran(f, t, Read(ResultOf(f, pc.onReject))), t, Fired(pc.onReject)))
      && (pc.Appended? || pc.Fired? || pc.Skipped? ==> Step(f, t) == f)
  {
    hide Goto, Ran, WithCbs, Cbs, ResultOf;
  }

  lemma YieldIs(f: Future, t: nat)
    requires t in f.threads
    ensures var pc := f.threads[t];
      && (pc.Ask? ==> Step(f, t) == Goto(f, t, if f.state != 0 then ScheduleSelf else ReadWaiters))
      && (pc.ReadWaiters? ==> Step(f, t) == Goto(f, t, if f.waiters.Drained? then ScheduleSelf else Park(f.waiters.items)))
      && (pc.Park? ==> Step(f, t) == if f.waiters == Open(pc.cur) then Goto(f.(waiters := Open(pc.cur + [t])), t, Parked)
                                     else Goto(f, t, ReadWaiters))
      && (pc.ScheduleSelf? ==> Step(f, t) == Goto(Scheduled(f, t), t, SelfScheduled))
      && (pc.Parked? || pc.SelfScheduled? ==> Step(f, t) == f)
  {
    hide Goto, Scheduled;
  }

  lemma ListeningBrings(f: Future, t: nat)
    requires t in f.threads && (f.threads[t].Look? || f.threads[t].Listen?)
    ensures Brings(f, t)
  {
    RegisterIs(f, t);
    hide Brings, Goto, Share, Step;
    var k := f.threads[t].onReject;
    if f.threads[t].Look? {
      GotoBrings(f, f, t, if f.state == 0 then Listen(k) else if (f.state == 2) == k then FireNow(k) else Skipped(k));
    } else {
      GotoBrings(f, f, t, if Cbs(f, k).Drained? then FireNow(k) else Append(k, Cbs(f, k).items));
    }
  }

  lemma AppendingBrings(f: Future, t: nat)
    requires t in f.threads && f.threads[t].Append?
    ensures Brings(f, t)
  {
    RegisterIs(f, t);
    hide Brings, Goto, Share, Step;
    var k, cur := f.threads[t].onReject, f.threads[t].cur;
    if Cbs(f, k) == Open(cur) { GotoBrings(f, WithCbs(f, k, Open(cur + [t])), t, Appended(k)); } else { GotoBrings(f, f, t, Listen(k)); }
  }

  lemma FiringNowBrings(f: Future, t: nat)
    requires t in f.threads && f.threads[t].FireNow?
    ensures Brings(f, t)
  {
    RegisterIs(f, t);
    hide Brings, Goto, Share, Step, Ran, Read, ResultOf;
    var k := f.threads[t].onReject;
    RanIs(f, t, Read(ResultOf(f, k)));
    GotoBrings(f, Ran(f, t, Read(ResultOf(f, k))), t, Fired(k));
  }

  lemma AskingBrings(f: Future, t: nat)
    requires t in f.threads && (f.threads[t].Ask? || f.threads[t].ReadWaiters?)
    ensures Brings(f, t)
  {
    YieldIs(f, t);
    hide Brings, Goto, Share, Step;
    if f.threads[t].Ask? {
      GotoBrings(f, f, t, if f.state != 0 then ScheduleSelf else ReadWaiters);
    } else {
      GotoBrings(f, f, t, if f.waiters.Drained? then ScheduleSelf else Park(f.waiters.items));
    }
  }

  lemma ParkingBrings(f: Future, t: nat)
    requires t in f.threads && f.threads[t].Park?
    ensures Brings(f, t)
  {
    YieldIs(f, t);
    hide Brings, Goto, Share, Step;
    var cur := f.threads[t].cur;
    if f.waiters == Open(cur) { GotoBrings(f, f.(waiters := Open(cur + [t])), t, Parked); } else { GotoBrings(f, f, t, ReadWaiters); }
  }

  lemma SchedulingBrings(f: Future, t: nat)
    requires t in f.threads && f.threads[t].ScheduleSelf?
    ensures Brings(f, t)
  {
    YieldIs(f, t);
    hide Brings, Goto, Share, Step, Scheduled;
    ScheduledIs(f, t);
    GotoBrings(f, Scheduled(f, t), t, SelfScheduled);
  }

  lemma MarkingBrings(f: Future, t: nat)
    requires t in f.threads && (f.threads[t].Mark? || f.threads[t].Poll?)
    ensures Brings(f, t)
  {
    MainIs(f, t);
    hide Brings, Goto, Share, Step;
    if f.threads[t].Mark? {
      GotoBrings(f, f.(mainWaiting := true), t, Poll);
    } else {
      GotoBrings(f, f, t, if f.state == 0 then Blocked else Unmark);
    }
  }

  lemma BlockedBrings(f: Future, t: nat)
    requires t in f.threads && f.threads[t].Blocked? && f.permits > 0
    ensures Brings(f, t)
  {
    MainIs(f, t);
    hide Brings, Goto, Share, Step;
    GotoBrings(f, f.(permits := f.permits - 1), t, Poll);
  }

  lemma UnmarkBrings(f: Future, t: nat)
    requires t in f.threads && f.threads[t].Unmark?
    ensures Brings(f, t)
  {
    MainIs(f, t);
    hide Brings, Goto, Share, Step;
    GotoBrings(f, f.(mainWaiting := false), t, Done);
  }

  // ----- What a step costs the other threads -----

  /** A list is left alone, drained, or longer by one. */
  predicate CellMoves(c: Cell, d: Cell) { d == c || d.Drained? || (c.Open? && |d.items| == |c.items| + 1) }

  predicate Effects(f: Future, g: Future) {
    && CellMoves(f.thenCbs, g.thenCbs) && CellMoves(f.catchCbs, g.catchCbs) && CellMoves(f.waiters, g.waiters)
    && g.permits <= f.permits + 1
  }

  lemma StepEffects(f: Future, t: nat)
    requires t in f.threads
    ensures Effects(f, Step(f, t))
  {
    hide Effects;
    match KindOf(f.threads[t])
    case Settling => SettlerEffects(f, t);
    case Registering => RegisterEffects(f, t);
    case Yielding => YieldEffects(f, t);
    case Blocking => MainEffects(f, t);
  }

  lemma SettlerEffects(f: Future, t: nat)
    requires t in f.threads && KindOf(f.threads[t]) == Settling
    ensures Effects(f, Step(f, t))
  {
    hide Goto, Ran, Scheduled, Read, ResultOf;
    var pc := f.threads[t];
    if pc.Fire? && pc.rest != [] { RanIs(f, pc.rest[0], pc.payload); }
    if pc.Wake? && pc.rest != [] { ScheduledIs(f, pc.rest[0]); }
    GotoKeeps(f, t);
  }

  lemma RegisterEffects(f: Future, t: nat)
    requires t in f.threads && KindOf(f.threads[t]) == Registering
    ensures Effects(f, Step(f, t))
  {
    RegisterIs(f, t);
    hide Goto, Ran, Read, ResultOf, Step;
    var pc := f.threads[t];
    if pc.FireNow? { RanIs(f, t, Read(ResultOf(f, pc.onReject))); }
    GotoKeeps(f, t);
  }

  lemma YieldEffects(f: Future, t: nat)
    requires t in f.threads && KindOf(f.threads[t]) == Yielding
    ensures Effects(f, Step(f, t))
  {
    YieldIs(f, t);
    hide Goto, Scheduled, Step;
    if f.threads[t].ScheduleSelf? { ScheduledIs(f, t); }
    GotoKeeps(f, t);
  }

  lemma MainEffects(f: Future, t: nat)
    requires t in f.threads && KindOf(f.threads[t]) == Blocking
    ensures Effects(f, Step(f, t))
  {
    MainIs(f, t);
    assert f.threads[t].Done? ==> Step(f, t) == f;
    hide Goto, Step;
    GotoKeeps(f, t);
  }

  lemma GotoKeeps(f: Future, t: nat)
    ensures forall h: Future, pc :: var g := Goto(h, t, pc);
      g.thenCbs == h.thenCbs && g.catchCbs == h.catchCbs && g.waiters == h.waiters && g.permits == h.permits
  {
  }

  lemma OthersLose(f: Future, g: Future, pc: Pc)
    requires Effects(f, g) && |g.threads| == |f.threads|
    ensures Rank(g, pc) <= Rank(f, pc) + 4
    ensures !Touches(f, g) ==> Rank(g, pc) <= Rank(f, pc)
  {
    hide Share;
  }

  // ----- All threads together -----

  function Total(f: Future, order: seq<nat>): nat
    requires forall i :: 0 <= i < |order| ==> order[i] in f.threads
  {
    if order == [] then 0 else Rank(f, f.threads[order[0]]) + Total(f, order[1..])
  }

  lemma {:induction false} TotalOthers(f: Future, g: Future, order: seq<nat>, t: nat)
    requires Effects(f, g) && t in f.threads && t in g.threads && g.threads == f.threads[t := g.threads[t]]
    requires forall i :: 0 <= i < |order| ==> order[i] in f.threads && order[i] != t
    ensures Total(g, order) <= Total(f, order) + 4 * |order|
    ensures !Touches(f, g) ==> Total(g, order) <= Total(f, order)
  {
    hide Rank, Effects, Touches;
    if order != [] {
      SameShare(f, g);
      OthersLose(f, g, f.threads[order[0]]);
      assert g.threads[order[0]] == f.threads[order[0]];
      TotalOthers(f, g, order[1..], t);
    }
  }

  predicate Lists(order: seq<nat>, f: Future) {
    && (forall i :: 0 <= i < |order| ==> order[i] in f.threads)
    && (forall i, j :: 0 <= i < j < |order| ==> order[i] != order[j])
  }

  lemma {:induction false} TotalSplits(f: Future, order: seq<nat>, i: nat)
    requires Lists(order, f) && i < |order|
    ensures Lists(order[..i] + order[i + 1..], f)
    ensures Total(f, order) == Rank(f, f.threads[order[i]]) + Total(f, order[..i] + order[i + 1..])
  {
    hide Rank;
    var rest := order[..i] + order[i + 1..];
    if i == 0 {
      assert rest == order[1..];
    } else {
      TotalSplits(f, order[1..], i - 1);
      assert rest[1..] == order[1..][..i - 1] + order[1..][i..];
    }
  }

  lemma ListShort(order: seq<nat>, f: Future)
    requires Lists(order, f)
    ensures |order| <= |f.threads|
  {
    DistinctCount(order);
    assert Members(order) <= f.threads.Keys;
    SubsetSmaller(Members(order), f.threads.Keys);
    assert |f.threads.Keys| == |f.threads|;
  }

  function Members(order: seq<nat>): set<nat> { set x | x in order }

  lemma {:induction false} DistinctCount(order: seq<nat>)
    requires forall i, j :: 0 <= i < j < |order| ==> order[i] != order[j]
    ensures |Members(order)| == |order|
  {
    if order != [] {
      var n := |order| - 1;
      DistinctCount(order[..n]);
      assert Members(order) == Members(order[..n]) + {order[n]} by { assert order == order[..n] + [order[n]]; }
      assert order[n] !in order[..n];
    }
  }

  lemma SubsetSmaller(a: set<nat>, b: set<nat>)
    requires a <= b
    ensures |a| <= |b|
  {
    assert |b| == |a| + |b - a| by { assert b == a + (b - a); }
  }

  /** Every step that does anything brings all operations together nearer to their end. */
  lemma StepLessens(f: Future, order: seq<nat>, t: nat)
    requires Lists(order, f) && t in order && Step(f, t) != f
    ensures Lists(order, Step(f, t)) && Total(Step(f, t), order) < Total(f, order)
  {
    var g := Step(f, t);
    StepBrings(f, t);
    StepEffects(f, t);
    var i :| 0 <= i < |order| && order[i] == t;
    var rest := order[..i] + order[i + 1..];
    hide Rank, Step, Effects, Touches, Total;
    TotalSplits(f, order, i);
    assert Lists(order, g);
    TotalSplits(g, order, i);
    TotalOthers(f, g, rest, t);
    ListShort(order, f);
  }

  /** The steps of a run that did something. */
  function Busy(f: Future, schedule: seq<nat>): nat
    requires forall i :: 0 <= i < |schedule| ==> schedule[i] in f.threads
    decreases |schedule|
  {
    if schedule == [] then 0
    else (if Step(f, schedule[0]) != f then 1 else 0) + Busy(Step(f, schedule[0]), schedule[1..])
  }

  lemma {:induction false} BusyIsBounded(f: Future, order: seq<nat>, schedule: seq<nat>)
    requires Lists(order, f) && forall i :: 0 <= i < |schedule| ==> schedule[i] in f.threads && schedule[i] in order
    ensures Lists(order, Run(f, schedule)) && Busy(f, schedule) + Total(Run(f, schedule), order) <= Total(f, order)
    decreases |schedule|
  {
    hide Total, Step;
    if schedule != [] {
      var t := schedule[0];
      if Step(f, t) != f { StepLessens(f, order, t); }
      BusyIsBounded(Step(f, t), order, schedule[1..]);
    }
  }

  lemma {:induction false} NewTotal(f: Future, order: seq<nat>)
    requires Init(f) && Lists(order, f)
    ensures Total(f, order) <= |order| * (12 * |f.threads| + 19)
  {
    if order != [] {
      var each := 12 * |f.threads| + 19;
      assert Rank(f, f.threads[order[0]]) <= each by { assert Starts(f.threads[order[0]]); }
      assert Lists(order[1..], f);
      NewTotal(f, order[1..]);
      hide Rank;
      assert (|order| - 1) * each + each == |order| * each;
    }
  }

  /** No operation on a future runs forever, however the threads interfere: n operations on a new future take
      at most n * (12 * n + 19) steps that do anything, under every schedule; and when no thread can do
      anything any more, every operation is over or the main thread sleeps on a pending future. */
  lemma EveryRunEnds(f: Future, order: seq<nat>, schedule: seq<nat>)
    requires Init(f) && Lists(order, f) && (forall t :: t in f.threads <==> t in order)
    requires forall i :: 0 <= i < |schedule| ==> schedule[i] in f.threads
    ensures var n := |f.threads|; Busy(f, schedule) <= n * (12 * n + 19)
    ensures var g := Run(f, schedule);
      (forall t | t in g.threads :: Step(g, t) == g) ==> Quiet(g) && (g.winner.Some? ==> forall t | t in g.threads :: !g.threads[t].Blocked?)
  {
    BusyIsBounded(f, order, schedule);
    NewTotal(f, order);
    assert |order| == |f.threads| by {
      DistinctCount(order);
      assert Members(order) == f.threads.Keys;
      assert |f.threads.Keys| == |f.threads|;
    }
    hide Total, Init, Step, Quiet;
    var g := Run(f, schedule);
    if forall t | t in g.threads :: Step(g, t) == g {
      StillIsQuiet(g);
      forall t | t in g.threads && g.winner.Some? ensures !g.threads[t].Blocked? {
        if g.threads[t].Blocked? { AsleepMeansPending(f, schedule, t); }
      }
    }
  }

  lemma StillIsQuiet(g: Future)
    requires forall t | t in g.threads :: Step(g, t) == g
    ensures Quiet(g)
  {
    forall t | t in g.threads ensures Over(g.threads[t]) || Asleep(g, g.threads[t]) {
      StepBrings(g, t);
      hide Rank, Step;
    }
  }

  // ----- One thread alone -----

  function Alone(t: nat, n: nat): (s: seq<nat>)
    ensures |s| == n && forall i :: 0 <= i < n ==> s[i] == t
  {
    seq(n, i => t)
  }

  lemma RankLeft(f: Future, t: nat)
    requires t in f.threads && Rank(f, f.threads[t]) == 0
    ensures Over(f.threads[t]) || Asleep(f, f.threads[t])
  {
  }

  /** A thread run alone reaches the end of its operation within its rank, or sleeps. */
  lemma {:induction false} RunsOut(f: Future, t: nat, n: nat)
    requires t in f.threads && (n >= Rank(f, f.threads[t]) || Over(f.threads[t]) || Asleep(f, f.threads[t]))
    ensures var g := Run(f, Alone(t, n));
      && t in g.threads && (Over(g.threads[t]) || Asleep(g, g.threads[t])) && KindOf(g.threads[t]) == KindOf(f.threads[t])
      && (if g.threads[t].Lost? then f.threads[t].Lost? || (f.threads[t].Claim? && f.winner.Some?) else Given(g.threads[t]) == Given(f.threads[t]))
      && (f.threads[t].Lost? ==> g.threads[t].Lost?)
      && g.threads == f.threads[t := g.threads[t]]
    decreases n
  {
    StepBrings(f, t);
    if Rank(f, f.threads[t]) == 0 { RankLeft(f, t); }
    hide Rank, Step, KindOf, Over, Asleep, Given;
    if n > 0 {
      assert Alone(t, n)[0] == t && Alone(t, n)[1..] == Alone(t, n - 1);
      RunsOut(Step(f, t), t, n - 1);
    }
  }

  /** How an operation can end. */
  predicate Ended(g: Future, pc: Pc, kind: Kind) {
    match kind
    case Settling => pc.Lost? || (pc.Settled? && g.state == if pc.reject then 2 else 1)
    case Registering => pc.Appended? || pc.Fired? || pc.Skipped?
    case Yielding => pc.Parked? || pc.SelfScheduled?
    case Blocking => pc.Done? || (pc.Blocked? && g.permits == 0 && At(g) < 6)
  }

  /** From every state, an operation whose thread is left alone ends in a bounded number of steps: a settler with
      the future settled, a registration kept, run or passed over, an actor parked or scheduled, and wait
      over unless no settler has come to its notify. */
  lemma OperationEnds(f: Future, t: nat)
    requires Inv(f) && t in f.threads
    ensures var g := Run(f, Alone(t, Rank(f, f.threads[t])));
      t in g.threads && Inv(g) && Ended(g, g.threads[t], KindOf(f.threads[t]))
  {
    var n := Rank(f, f.threads[t]);
    RunsOut(f, t, n);
    RunKeeps(f, Alone(t, n));
    var g := Run(f, Alone(t, n));
    hide Rank, Run;
    InvParts(g);
    hide Inv;
    if g.threads[t].Settled? { SettledState(g, t); }
    if g.threads[t].Blocked? { assert At(g) >= 6 ==> g.permits > 0; }
    EndIs(g, t);
  }

  lemma EndIs(g: Future, t: nat)
    requires t in g.threads && (Over(g.threads[t]) || Asleep(g, g.threads[t]))
    requires g.threads[t].Settled? ==> g.state == if g.threads[t].reject then 2 else 1
    requires g.threads[t].Blocked? ==> (At(g) >= 6 ==> g.permits > 0)
    ensures Ended(g, g.threads[t], KindOf(g.threads[t]))
  {
  }

  lemma SettledState(g: Future, t: nat)
    requires FieldsOk(g) && OneSettler(g) && t in g.threads && g.threads[t].Settled?
    ensures var r, v := g.threads[t].reject, g.threads[t].payload;
      && g.state == (if r then 2 else 1) && HasWinner(g) && Winner(g) == Settled(r, v) && At(g) == 8
      && (if r then g.error else g.value) == Some(v) && (if r then g.value else g.error) == None
      && Waiting(g, r) == [] && Sleeping(g) == []
  {
    WinnerIs(g, t);
  }

  /** resolve: v and rejectWith: v, called first and left alone, return; the future then is settled with v, each
      callback of its kind registered before has run once with v and none of the other kind, and each
      actor that was parked has been scheduled once. */
  lemma SettlesWith(f: Future, t: nat, reject: bool, v: Value)
    requires Inv(f) && t in f.threads && f.threads[t] == Claim(reject, v) && f.winner == None
    ensures var g := Run(f, Alone(t, Rank(f, f.threads[t])));
      && t in g.threads && g.threads[t] == Settled(reject, v) && g.threads == f.threads[t := Settled(reject, v)]
      && g.state == (if reject then 2 else 1)
      && (if reject then g.error else g.value) == Some(v) && (if reject then g.value else g.error) == None
      && (forall u | u in f.threads && f.threads[u] == Appended(reject) :: RunsOf(g, u) == [v])
      && (forall u | u in f.threads && f.threads[u] == Appended(!reject) :: RunsOf(g, u) == [])
      && (forall u | u in f.threads && f.threads[u] == Parked :: Times(g, u) == 1)
  {
    hide *;
    AloneSettles(f, t, reject, v);
    RegisteredHaveRun(f, Run(f, Alone(t, Rank(f, f.threads[t]))), t, reject, v);
  }

  lemma RegisteredHaveRun(f: Future, g: Future, t: nat, reject: bool, v: Value)
    requires Inv(g) && t in f.threads && !f.threads[t].Appended? && f.threads[t] != Parked && g.threads == f.threads[t := Settled(reject, v)]
    ensures forall u | u in f.threads && f.threads[u] == Appended(reject) :: RunsOf(g, u) == [v]
    ensures forall u | u in f.threads && f.threads[u] == Appended(!reject) :: RunsOf(g, u) == []
    ensures forall u | u in f.threads && f.threads[u] == Parked :: Times(g, u) == 1
  {
    hide *;
    assert g.threads[t] == Settled(reject, v);
    forall u | u in f.threads && u != t
      ensures f.threads[u] == Appended(reject) ==> RunsOf(g, u) == [v]
      ensures f.threads[u] == Appended(!reject) ==> RunsOf(g, u) == []
      ensures f.threads[u] == Parked ==> Times(g, u) == 1
    {
      assert u in g.threads && g.threads[u] == f.threads[u];
      AfterSettling(g, u, reject, v);
    }
  }

  lemma AloneSettles(f: Future, t: nat, reject: bool, v: Value)
    requires Inv(f) && t in f.threads && f.threads[t] == Claim(reject, v) && f.winner == None
    ensures var g := Run(f, Alone(t, Rank(f, f.threads[t])));
      && t in g.threads && g.threads[t] == Settled(reject, v) && g.threads == f.threads[t := Settled(reject, v)]
      && Inv(g) && g.state == (if reject then 2 else 1)
      && (if reject then g.error else g.value) == Some(v) && (if reject then g.value else g.error) == None
  {
    hide *;
    var n := Rank(f, f.threads[t]);
    RunsOut(f, t, n);
    RunKeeps(f, Alone(t, n));
    var g := Run(f, Alone(t, n));
    SettlerOver(f, g, g.threads[t], reject, v);
    InvParts(g);
    SettledState(g, t);
  }

  lemma SettlerOver(f: Future, g: Future, pc: Pc, reject: bool, v: Value)
    requires (Over(pc) || Asleep(g, pc)) && KindOf(pc) == KindOf(Claim(reject, v)) && f.winner == None
    requires if pc.Lost? then f.winner.Some? else Given(pc) == Given(Claim(reject, v))
    ensures pc == Settled(reject, v)
  {
  }

  lemma AfterSettling(g: Future, u: nat, reject: bool, v: Value)
    requires Inv(g) && u in g.threads && exists t :: t in g.threads && g.threads[t] == Settled(reject, v)
    ensures g.threads[u] == Appended(reject) ==> RunsOf(g, u) == [v]
    ensures g.threads[u] == Appended(!reject) ==> RunsOf(g, u) == []
    ensures g.threads[u] == Parked ==> Times(g, u) == 1
  {
    var t :| t in g.threads && g.threads[t] == Settled(reject, v);
    InvParts(g);
    assert CallbackOk(g, u) && ActorOk(g, u);
    hide Inv, OneSettler, QueuesOk, MainOk;
    SettledState(g, t);
    hide Waiting, Sleeping, At, FieldsOk;
  }
}
