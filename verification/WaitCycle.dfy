/** Actors that wait for each other: before it parks, an actor records what it awaits and only then
    walks the chain of records. Two actors may reach their waits at the same moment; no cycle of
    parked actors ever comes about. */
module WaitCycle {

  datatype Option<T> = None | Some(value: T)

  /** An actor in `Future>>wait`: the walk is at future `cur` in its turn `k`. Reading a future's
      state, its target and the target's record are steps of their own. */
  datatype Pc =
    | Idle
    | CheckState(cur: nat, k: nat)
    | CheckTarget(cur: nat, k: nat)
    | ReadRecord(target: nat, k: nat)
    | Parked
    | Reported

  const MAX_WALK := 256

  datatype System = System(
    target: map<nat, nat>,     // the actor that will settle a future, if it is an actor's message
    settled: set<nat>,
    waitingOn: map<nat, nat>,
    pc: map<nat, Pc>,
    time: map<nat, nat>,       // when each actor last recorded, by one clock
    clock: nat)

  datatype Event =
    | Begin(actor: nat, future: nat)
    | Advance(actor: nat)
    | Settle(future: nat)
    | Resume(actor: nat)

  function PcOf(s: System, a: nat): Pc { if a in s.pc then s.pc[a] else Idle }

  predicate Waits(s: System, a: nat) {
    !PcOf(s, a).Idle? && !PcOf(s, a).Reported? && a in s.waitingOn && a in s.time
  }

  function Goto(s: System, a: nat, pc: Pc): System { s.(pc := s.pc[a := pc]) }

  function Next(s: System, ev: Event): System {
    match ev
    case Begin(a, f) =>
      if PcOf(s, a).Idle? then
        Goto(s, a, CheckState(f, 0)).(waitingOn := s.waitingOn[a := f], time := s.time[a := s.clock], clock := s.clock + 1)
      else s
    case Settle(f) => s.(settled := s.settled + {f})
    case Resume(a) =>
      // A settled future lets its waiter go on, its record cleared. An actor that reported the
      // deadlock goes on with an error.
      if (PcOf(s, a).Parked? && a in s.waitingOn && s.waitingOn[a] in s.settled) || PcOf(s, a).Reported? then
        Goto(s, a, Idle).(waitingOn := s.waitingOn - {a})
      else s
    case Advance(a) =>
      match PcOf(s, a)
      case CheckState(f, k) => Goto(s, a, if f in s.settled then Parked else CheckTarget(f, k))
      case CheckTarget(f, k) =>
        if f !in s.target then Goto(s, a, Parked)
        else if s.target[f] == a then Goto(s, a, Reported).(waitingOn := s.waitingOn - {a})
        else Goto(s, a, ReadRecord(s.target[f], k))
      case ReadRecord(b, k) =>
        Goto(s, a, if b in s.waitingOn && k + 1 < MAX_WALK then CheckState(s.waitingOn[b], k + 1) else Parked)
      case _ => s
  }

  function Run(s: System, evs: seq<Event>): System
    decreases |evs|
  {
    if evs == [] then s else Run(Next(s, evs[0]), evs[1..])
  }

  predicate Init(s: System) { s.settled == {} && s.waitingOn == map[] && s.pc == map[] && s.time == map[] }

  /** The k-th future on the chain from actor `a`, along actors that recorded before it did and
      still wait for what they recorded. */
  function Hop(s: System, a: nat, k: nat): Option<nat>
    decreases k
  {
    if !Waits(s, a) then None
    else if k == 0 then Some(s.waitingOn[a])
    else
      var f := Hop(s, a, k - 1);
      if f == None || f.value in s.settled || f.value !in s.target then None
      else
        var b := s.target[f.value];
        if b != a && Waits(s, b) && s.time[b] < s.time[a] then Some(s.waitingOn[b]) else None
  }

  /** The future at place `j` of the chain does not lead back to `a`. */
  predicate Away(s: System, a: nat, j: nat) {
    var f := Hop(s, a, j);
    f.Some? && f.value !in s.settled && f.value in s.target ==> s.target[f.value] != a
  }

  ghost predicate Walked(s: System, a: nat, k: nat) { forall j | 0 <= j < k :: Away(s, a, j) }

  /** Where the walk stands, if the chain is still the one it walks along. */
  ghost predicate WalkOk(s: System, a: nat) {
    match PcOf(s, a)
    case CheckState(f, k) => k < MAX_WALK && Walked(s, a, k) && (Hop(s, a, k).Some? ==> f == Hop(s, a, k).value)
    case CheckTarget(f, k) => k < MAX_WALK && Walked(s, a, k) && (Hop(s, a, k).Some? ==> f == Hop(s, a, k).value)
    case ReadRecord(b, k) =>
      k < MAX_WALK && Walked(s, a, k + 1)
      && (Hop(s, a, k + 1).Some? ==> s.target[Hop(s, a, k).value] == b)
    case Parked => Walked(s, a, MAX_WALK)
    case _ => true
  }

  ghost predicate Inv(s: System) {
    && (forall a | a in s.time :: s.time[a] < s.clock)
    && (forall a, b | a in s.time && b in s.time && a != b :: s.time[a] != s.time[b])
    && (forall a :: !PcOf(s, a).Idle? && !PcOf(s, a).Reported? ==> Waits(s, a))
    && (forall a :: WalkOk(s, a))
  }

  /** A step of the system takes chains apart but never makes one longer or other, but for the
      actor that begins a wait. */
  predicate Keeps(s: System, t: System, a: nat) {
    && t.target == s.target && s.settled <= t.settled
    && (Waits(t, a) ==> Waits(s, a) && t.waitingOn[a] == s.waitingOn[a] && t.time[a] == s.time[a])
  }

  lemma {:induction false} HopStays(s: System, t: System, a: nat, k: nat)
    requires Keeps(s, t, a) && t.target == s.target && s.settled <= t.settled
    requires forall b :: Waits(t, b) && Waits(t, a) && t.time[b] < t.time[a] ==> Keeps(s, t, b)
    ensures Hop(t, a, k).Some? ==> Hop(t, a, k) == Hop(s, a, k)
    decreases k
  {
    if k > 0 { HopStays(s, t, a, k - 1); }
  }

  lemma WalkedStays(s: System, t: System, a: nat, k: nat)
    requires Keeps(s, t, a) && Walked(s, a, k)
    requires forall b :: Waits(t, b) && Waits(t, a) && t.time[b] < t.time[a] ==> Keeps(s, t, b)
    ensures Walked(t, a, k)
  {
    forall j | 0 <= j < k ensures Away(t, a, j) {
      HopStays(s, t, a, j);
      assert Away(s, a, j);
    }
  }

  /** What an actor's walk has found out stays true when anything else happens. */
  lemma WalkStays(s: System, t: System, a: nat)
    requires WalkOk(s, a) && Keeps(s, t, a) && PcOf(t, a) == PcOf(s, a)
    requires forall b :: Waits(t, b) && Waits(t, a) && t.time[b] < t.time[a] ==> Keeps(s, t, b)
    ensures WalkOk(t, a)
  {
    match PcOf(s, a)
    case CheckState(f, k) => WalkedStays(s, t, a, k); HopStays(s, t, a, k);
    case CheckTarget(f, k) => WalkedStays(s, t, a, k); HopStays(s, t, a, k);
    case ReadRecord(b, k) => WalkedStays(s, t, a, k + 1); HopStays(s, t, a, k); HopStays(s, t, a, k + 1);
    case Parked => WalkedStays(s, t, a, MAX_WALK);
    case _ =>
  }

  lemma NoHopPast(s: System, a: nat, k: nat, j: nat)
    requires Hop(s, a, k) == None && k <= j
    ensures Hop(s, a, j) == None
    decreases j
  {
    if k < j { NoHopPast(s, a, k, j - 1); }
  }

  /** A walk that ends at a place the chain does not go past has seen all of it. */
  lemma WalkEnds(s: System, a: nat, k: nat)
    requires Walked(s, a, k) && (Hop(s, a, k) == None || (Away(s, a, k) && Hop(s, a, k + 1) == None))
    ensures Walked(s, a, MAX_WALK)
  {
    forall j | 0 <= j < MAX_WALK ensures Away(s, a, j) {
      if j >= k {
        if Hop(s, a, k) == None { NoHopPast(s, a, k, j); } else if j > k { NoHopPast(s, a, k + 1, j); }
      }
    }
  }

  lemma BeginKeeps(s: System, a: nat, f: nat)
    requires Inv(s) && PcOf(s, a).Idle?
    ensures Inv(Next(s, Begin(a, f)))
  {
    var t := Next(s, Begin(a, f));
    forall u ensures WalkOk(t, u) && (!PcOf(t, u).Idle? && !PcOf(t, u).Reported? ==> Waits(t, u)) {
      if u != a {
        assert WalkOk(s, u);
        assert PcOf(t, u) == PcOf(s, u) && Keeps(s, t, u);
        forall b | Waits(t, b) && Waits(t, u) && t.time[b] < t.time[u] ensures Keeps(s, t, b) {}
        WalkStays(s, t, u);
      }
    }
  }

  lemma OthersKeep(s: System, t: System, a: nat)
    requires Inv(s) && t.target == s.target && s.settled <= t.settled && t.time == s.time && t.clock == s.clock
    requires forall u :: u != a ==> PcOf(t, u) == PcOf(s, u) && (u in t.waitingOn <==> u in s.waitingOn)
    requires forall u | u in t.waitingOn :: u in s.waitingOn && t.waitingOn[u] == s.waitingOn[u]
    requires Waits(t, a) ==> Waits(s, a)
    requires (!PcOf(t, a).Idle? && !PcOf(t, a).Reported? ==> Waits(t, a)) && WalkOk(t, a)
    ensures Inv(t)
  {
    forall u ensures Keeps(s, t, u) {}
    forall u ensures WalkOk(t, u) && (!PcOf(t, u).Idle? && !PcOf(t, u).Reported? ==> Waits(t, u)) {
      if u != a {
        assert WalkOk(s, u);
        WalkStays(s, t, u);
      }
    }
  }

  /** A step of a walking actor itself. */
  lemma WalkStep(s: System, a: nat)
    requires Inv(s) && (PcOf(s, a).CheckState? || PcOf(s, a).CheckTarget? || PcOf(s, a).ReadRecord?)
    ensures WalkOk(Next(s, Advance(a)), a)
  {
    assert WalkOk(s, a) && Waits(s, a);
    hide Hop, Walked, Inv;
    match PcOf(s, a)
    case CheckState(f, k) => StateRead(s, a, f, k);
    case CheckTarget(f, k) => TargetRead(s, a, f, k);
    case ReadRecord(b, k) => RecordRead(s, a, b, k);
  }

  lemma StateRead(s: System, a: nat, f: nat, k: nat)
    requires PcOf(s, a) == CheckState(f, k) && WalkOk(s, a) && Waits(s, a)
    ensures WalkOk(Next(s, Advance(a)), a)
  {
    var t := Next(s, Advance(a));
    forall u ensures Keeps(s, t, u) {}
    WalkedStays(s, t, a, k);
    HopStays(s, t, a, k);
    if f in s.settled { WalkEnds(t, a, k); }
  }

  lemma TargetRead(s: System, a: nat, f: nat, k: nat)
    requires PcOf(s, a) == CheckTarget(f, k) && WalkOk(s, a) && Waits(s, a)
    ensures WalkOk(Next(s, Advance(a)), a)
  {
    var t := Next(s, Advance(a));
    if PcOf(t, a).Reported? { return; }
    forall u ensures Keeps(s, t, u) {}
    WalkedStays(s, t, a, k);
    HopStays(s, t, a, k);
    assert Away(t, a, k);
    if f !in s.target {
      WalkEnds(t, a, k);
    } else {
      hide Walked;
      assert Walked(t, a, k + 1) by { OneMoreWalked(t, a, k); }
    }
  }

  lemma OneMoreWalked(s: System, a: nat, k: nat)
    requires Walked(s, a, k) && Away(s, a, k)
    ensures Walked(s, a, k + 1)
  {
    hide Away;
  }

  lemma RecordRead(s: System, a: nat, b: nat, k: nat)
    requires PcOf(s, a) == ReadRecord(b, k) && WalkOk(s, a) && Waits(s, a)
    ensures WalkOk(Next(s, Advance(a)), a)
  {
    var t := Next(s, Advance(a));
    forall u ensures Keeps(s, t, u) {}
    WalkedStays(s, t, a, k + 1);
    HopStays(s, t, a, k);
    HopStays(s, t, a, k + 1);
    if b !in s.waitingOn { WalkEnds(t, a, k + 1); }
  }

  lemma NextKeeps(s: System, ev: Event)
    requires Inv(s)
    ensures Inv(Next(s, ev))
  {
    var t := Next(s, ev);
    match ev
    case Begin(a, f) => if PcOf(s, a).Idle? { BeginKeeps(s, a, f); }
    case Settle(f) =>
      forall u ensures Keeps(s, t, u) {}
      assert WalkOk(s, 0);
      WalkStays(s, t, 0);
      OthersKeep(s, t, 0);
    case Resume(a) => if t != s { OthersKeep(s, t, a); }
    case Advance(a) =>
      if t != s {
        WalkStep(s, a);
        OthersKeep(s, t, a);
      }
  }

  lemma {:induction false} RunKeeps(s: System, evs: seq<Event>)
    requires Inv(s)
    ensures Inv(Run(s, evs))
    decreases |evs|
  {
    hide Inv, Next;
    if evs != [] {
      NextKeeps(s, evs[0]);
      RunKeeps(Next(s, evs[0]), evs[1..]);
    }
  }

  function After(i: nat, n: nat): nat { if i + 1 == n then 0 else i + 1 }

  /** A ring of actors, each parked on a pending future that only the next one can settle. */
  predicate Deadlocked(s: System, ring: seq<nat>) {
    && ring != [] && (forall i, j :: 0 <= i < j < |ring| ==> ring[i] != ring[j])
    && forall i :: 0 <= i < |ring| ==> Stuck(s, ring[i], ring[After(i, |ring|)])
  }

  /** Actor `a` is parked on a pending future that is actor `b`'s to settle. */
  predicate Stuck(s: System, a: nat, b: nat) {
    && PcOf(s, a).Parked? && a in s.waitingOn && s.waitingOn[a] !in s.settled
    && s.waitingOn[a] in s.target && s.target[s.waitingOn[a]] == b
  }

  function Turned(ring: seq<nat>, m: nat): seq<nat>
    requires m < |ring|
  {
    ring[m..] + ring[..m]
  }

  lemma TurnedDeadlock(s: System, ring: seq<nat>, m: nat)
    requires Deadlocked(s, ring) && m < |ring|
    ensures Deadlocked(s, Turned(ring, m))
    ensures |Turned(ring, m)| == |ring| && Turned(ring, m)[0] == ring[m]
    ensures forall a :: a in Turned(ring, m) ==> a in ring
  {
    hide Stuck;
    var r, n := Turned(ring, m), |ring|;
    forall i | 0 <= i < n ensures r[i] == ring[if i + m < n then i + m else i + m - n] {}
    forall i | 0 <= i < n ensures Stuck(s, r[i], r[After(i, n)]) {
      var j := if i + m < n then i + m else i + m - n;
      assert Stuck(s, ring[j], ring[After(j, n)]);
    }
  }

  /** The member that recorded last. */
  lemma {:induction false} LastRecorder(s: System, ring: seq<nat>) returns (m: nat)
    requires ring != [] && forall a | a in ring :: a in s.time
    ensures m < |ring| && forall a | a in ring :: s.time[a] <= s.time[ring[m]]
    decreases |ring|
  {
    if |ring| == 1 {
      m := 0;
    } else {
      var k := LastRecorder(s, ring[1..]);
      m := if s.time[ring[0]] >= s.time[ring[k + 1]] then 0 else k + 1;
      assert ring == [ring[0]] + ring[1..];
    }
  }

  /** From the member that recorded last, the chain goes round the whole ring. */
  lemma {:induction false} ChainOfRing(s: System, ring: seq<nat>, k: nat)
    requires Deadlocked(s, ring) && k < |ring| && ring[0] in s.time
    requires forall a | a in ring :: a in s.time && s.time[a] <= s.time[ring[0]]
    requires forall a, b | a in s.time && b in s.time && a != b :: s.time[a] != s.time[b]
    ensures ring[k] in s.waitingOn && Hop(s, ring[0], k) == Some(s.waitingOn[ring[k]])
    decreases k
  {
    assert Stuck(s, ring[k], ring[After(k, |ring|)]);
    assert Stuck(s, ring[0], ring[After(0, |ring|)]);
    assert ring[k] in ring && ring[0] in ring;
    if k > 0 {
      ChainOfRing(s, ring, k - 1);
      assert Stuck(s, ring[k - 1], ring[After(k - 1, |ring|)]);
      assert ring[k] != ring[0];
    }
  }

  lemma ParkedIsAway(s: System, a: nat, j: nat)
    requires Inv(s) && PcOf(s, a).Parked? && j < MAX_WALK
    ensures Away(s, a, j)
  {
    hide Away, Hop;
    assert WalkOk(s, a);
  }

  /** The walk of the member that recorded last saw every record of a ring: its future at the ring's
      end would have led it back to itself. */
  lemma LastOneReports(s: System, ring: seq<nat>)
    requires Inv(s) && ring != [] && ring[0] in s.time
    requires forall a | a in ring :: a in s.time && s.time[a] <= s.time[ring[0]]
    ensures |ring| <= MAX_WALK ==> !Deadlocked(s, ring)
  {
    if |ring| <= MAX_WALK && Deadlocked(s, ring) {
      var last := |ring| - 1;
      assert Stuck(s, ring[last], ring[After(last, |ring|)]);
      assert Stuck(s, ring[0], ring[After(0, |ring|)]);
      ChainOfRing(s, ring, last);
      hide Inv, Hop;
      ParkedIsAway(s, ring[0], last);
    }
  }

  /** No deadlock goes unreported: in no run does a ring of at most 256 actors park on each other. */
  lemma NoRingParks(s: System, evs: seq<Event>, ring: seq<nat>)
    requires Init(s) && |ring| <= 256
    ensures !Deadlocked(Run(s, evs), ring)
  {
    hide Next, Run, Stuck, Hop;
    InitInv(s);
    RunKeeps(s, evs);
    var t := Run(s, evs);
    if Deadlocked(t, ring) {
      ParkedRecorded(t, ring);
      var m := LastRecorder(t, ring);
      TurnedDeadlock(t, ring, m);
      hide Deadlocked, Inv;
      LastOneReports(t, Turned(ring, m));
    }
  }

  lemma ParkedRecorded(s: System, ring: seq<nat>)
    requires Inv(s) && Deadlocked(s, ring)
    ensures forall a | a in ring :: a in s.time
  {
    hide WalkOk;
    forall a | a in ring ensures a in s.time {
      var i :| 0 <= i < |ring| && ring[i] == a;
      assert Stuck(s, a, ring[After(i, |ring|)]);
      assert Waits(s, a);
    }
  }

  lemma InitInv(s: System)
    requires Init(s)
    ensures Inv(s)
  {
  }

  // ----- What a report rests on -----

  /** A future a walk has come to, and after how many events of the run it was read from a record. */
  datatype Seen = Seen(future: nat, at: nat)

  /** The futures that an actor's latest walk has come to, its own first. */
  function Trail(s: System, evs: seq<Event>, a: nat): seq<Seen>
    decreases |evs|
  {
    if evs == [] then []
    else
      var n := |evs| - 1;
      var t, trail := Run(s, evs[..n]), Trail(s, evs[..n], a);
      if evs[n] == Advance(a) && PcOf(t, a).ReadRecord? && PcOf(t, a).target in t.waitingOn then
        trail + [Seen(t.waitingOn[PcOf(t, a).target], n)]
      else if evs[n].Begin? && evs[n].actor == a && PcOf(t, a).Idle? then [Seen(evs[n].future, n + 1)]
      else trail
  }

  predicate RecordedAt(s: System, evs: seq<Event>, k: nat, b: nat, f: nat) {
    k <= |evs| && b in Run(s, evs[..k]).waitingOn && Run(s, evs[..k]).waitingOn[b] == f
  }

  /** Each future of a trail but the first stood, when it was read, in the record of the actor that the future
      before it waits for: another actor than the one that walks. */
  predicate Founded(s: System, evs: seq<Event>, a: nat, trail: seq<Seen>) {
    && trail != [] && RecordedAt(s, evs, trail[0].at, a, trail[0].future)
    && (forall i, j :: 0 <= i < j < |trail| ==> trail[i].at <= trail[j].at)
    && (forall j :: 0 < j < |trail| ==> Leads(s, evs, a, trail[j - 1].future, trail[j]))
  }

  predicate Leads(s: System, evs: seq<Event>, a: nat, f: nat, next: Seen) {
    f in s.target && s.target[f] != a && RecordedAt(s, evs, next.at, s.target[f], next.future)
  }

  lemma {:induction false} RunLast(s: System, evs: seq<Event>, ev: Event)
    ensures Run(s, evs + [ev]) == Next(Run(s, evs), ev)
    decreases |evs|
  {
    hide Next;
    var all := evs + [ev];
    if evs == [] {
      assert all[1..] == [] && all[0] == ev;
    } else {
      assert all[1..] == evs[1..] + [ev];
      RunLast(Next(s, evs[0]), evs[1..], ev);
    }
  }

  lemma {:induction false} TargetStays(s: System, evs: seq<Event>)
    ensures Run(s, evs).target == s.target
    decreases |evs|
  {
    if evs != [] { TargetStays(Next(s, evs[0]), evs[1..]); }
  }

  lemma RecordedLater(s: System, evs: seq<Event>, ev: Event, k: nat, b: nat, f: nat)
    requires RecordedAt(s, evs, k, b, f)
    ensures RecordedAt(s, evs + [ev], k, b, f)
  {
    assert (evs + [ev])[..k] == evs[..k];
  }

  lemma FoundedLater(s: System, evs: seq<Event>, ev: Event, a: nat, trail: seq<Seen>)
    requires Founded(s, evs, a, trail)
    ensures Founded(s, evs + [ev], a, trail)
  {
    hide RecordedAt;
    RecordedLater(s, evs, ev, trail[0].at, a, trail[0].future);
    forall j | 0 < j < |trail| ensures Leads(s, evs + [ev], a, trail[j - 1].future, trail[j]) {
      assert Leads(s, evs, a, trail[j - 1].future, trail[j]);
      RecordedLater(s, evs, ev, trail[j].at, s.target[trail[j - 1].future], trail[j].future);
    }
  }

  /** Where a walk stands on its trail. */
  predicate OnTrail(t: System, a: nat, trail: seq<Seen>) {
    var last := if trail == [] then 0 else trail[|trail| - 1].future;
    match PcOf(t, a)
    case Idle => true
    case CheckState(f, _) => f == last
    case CheckTarget(f, _) => f == last
    case ReadRecord(b, _) => last in t.target && t.target[last] == b != a
    case Parked => true
    case Reported => last in t.target && t.target[last] == a
  }

  predicate TrailOk(s: System, evs: seq<Event>, a: nat) {
    var t, trail := Run(s, evs), Trail(s, evs, a);
    !PcOf(t, a).Idle? ==>
      Founded(s, evs, a, trail) && OnTrail(t, a, trail)
      && (!PcOf(t, a).Reported? ==> a in t.waitingOn && t.waitingOn[a] == trail[0].future)
  }

  lemma {:induction false} TrailKeeps(s: System, evs: seq<Event>, a: nat)
    requires Init(s)
    ensures TrailOk(s, evs, a)
    decreases |evs|
  {
    if evs != [] {
      var n := |evs| - 1;
      var before, ev := evs[..n], evs[n];
      assert evs == before + [ev];
      TrailKeeps(s, before, a);
      RunLast(s, before, ev);
      TargetStays(s, before);
      TrailStep(s, before, ev, a);
    }
  }

  /** Whether an event makes an actor's walk go on to another future, which it finds in a record. */
  predicate GoesOn(t: System, ev: Event, a: nat) {
    ev == Advance(a) && PcOf(t, a).ReadRecord? && PcOf(t, a).target in t.waitingOn
  }

  predicate Starts(t: System, ev: Event, a: nat) { ev.Begin? && ev.actor == a && PcOf(t, a).Idle? }

  lemma TrailIs(s: System, evs: seq<Event>, ev: Event, a: nat)
    ensures var t, trail := Run(s, evs), Trail(s, evs, a);
      Trail(s, evs + [ev], a) ==
        if GoesOn(t, ev, a) then trail + [Seen(t.waitingOn[PcOf(t, a).target], |evs|)]
        else if Starts(t, ev, a) then [Seen(ev.future, |evs| + 1)] else trail
  {
    assert (evs + [ev])[..|evs|] == evs;
  }

  lemma TrailStep(s: System, evs: seq<Event>, ev: Event, a: nat)
    requires TrailOk(s, evs, a) && Run(s, evs + [ev]) == Next(Run(s, evs), ev) && Run(s, evs).target == s.target
    ensures TrailOk(s, evs + [ev], a)
  {
    var t, trail := Run(s, evs), Trail(s, evs, a);
    TrailIs(s, evs, ev, a);
    hide Run, Trail;
    if Starts(t, ev, a) {
      StartsTrail(s, evs, ev, a);
    } else if !PcOf(t, a).Idle? {
      FoundedLater(s, evs, ev, a, trail);
      hide Founded, RecordedAt;
      StandsOnTrail(t, ev, a, trail);
      if GoesOn(t, ev, a) {
        var next := Seen(t.waitingOn[PcOf(t, a).target], |evs|);
        RecordedNow(s, evs, ev, PcOf(t, a).target);
        TimesSoFar(s, evs, a, trail);
        hide GoesOn, Starts, OnTrail, Next;
        assert Leads(s, evs + [ev], a, trail[|trail| - 1].future, next);
        TrailGrows(s, evs + [ev], a, trail, next);
      }
    }
  }

  lemma StartsTrail(s: System, evs: seq<Event>, ev: Event, a: nat)
    requires Starts(Run(s, evs), ev, a) && Run(s, evs + [ev]) == Next(Run(s, evs), ev)
    requires Trail(s, evs + [ev], a) == [Seen(ev.future, |evs| + 1)]
    ensures TrailOk(s, evs + [ev], a)
  {
    hide Run, Trail;
    assert (evs + [ev])[..|evs| + 1] == evs + [ev];
    assert RecordedAt(s, evs + [ev], |evs| + 1, a, ev.future);
  }

  lemma RecordedNow(s: System, evs: seq<Event>, ev: Event, b: nat)
    requires b in Run(s, evs).waitingOn
    ensures RecordedAt(s, evs + [ev], |evs|, b, Run(s, evs).waitingOn[b])
  {
    hide Run;
    assert (evs + [ev])[..|evs|] == evs;
  }

  lemma TimesSoFar(s: System, evs: seq<Event>, a: nat, trail: seq<Seen>)
    requires Founded(s, evs, a, trail)
    ensures forall i :: 0 <= i < |trail| ==> trail[i].at <= |evs|
  {
    hide Run;
    forall i | 0 <= i < |trail| ensures trail[i].at <= |evs| {
      if i > 0 { assert Leads(s, evs, a, trail[i - 1].future, trail[i]); }
    }
  }

  /** A step of a walk that starts no other walk. */
  lemma StandsOnTrail(t: System, ev: Event, a: nat, trail: seq<Seen>)
    requires trail != [] && OnTrail(t, a, trail) && !PcOf(t, a).Idle?
    requires !PcOf(t, a).Reported? ==> a in t.waitingOn && t.waitingOn[a] == trail[0].future
    ensures var u := Next(t, ev);
      && (GoesOn(t, ev, a) ==> OnTrail(u, a, trail + [Seen(t.waitingOn[PcOf(t, a).target], 0)])
                               && trail[|trail| - 1].future in t.target && t.target[trail[|trail| - 1].future] == PcOf(t, a).target != a)
      && (!GoesOn(t, ev, a) ==> OnTrail(u, a, trail))
      && (!PcOf(u, a).Reported? && !PcOf(u, a).Idle? ==> a in u.waitingOn && u.waitingOn[a] == trail[0].future)
  {
  }

  lemma TrailGrows(s: System, evs: seq<Event>, a: nat, trail: seq<Seen>, next: Seen)
    requires Founded(s, evs, a, trail) && Leads(s, evs, a, trail[|trail| - 1].future, next)
    requires forall i :: 0 <= i < |trail| ==> trail[i].at <= next.at
    ensures Founded(s, evs, a, trail + [next])
  {
    hide RecordedAt;
    var all := trail + [next];
    forall j | 0 < j < |all| ensures Leads(s, evs, a, all[j - 1].future, all[j]) {
      if j < |trail| { assert Leads(s, evs, a, trail[j - 1].future, trail[j]); }
    }
  }

  /** No report without a chain: an actor steps to a report only at a future that is its own to settle, which
      its walk came to from the future it waits for itself, by records of other actors, each read on the way. */
  lemma ReportsAreFounded(s: System, evs: seq<Event>, ev: Event, a: nat)
    requires Init(s)
    requires !PcOf(Run(s, evs), a).Reported? && PcOf(Run(s, evs + [ev]), a).Reported?
    ensures var t, trail := Run(s, evs), Trail(s, evs, a);
      && Founded(s, evs, a, trail) && a in t.waitingOn && t.waitingOn[a] == trail[0].future
      && trail[|trail| - 1].future in s.target && s.target[trail[|trail| - 1].future] == a
      && ev == Advance(a)
  {
    TrailKeeps(s, evs, a);
    RunLast(s, evs, ev);
    TargetStays(s, evs);
    ReportStep(Run(s, evs), ev, a);
    hide Founded, Run, Trail, Next;
  }

  lemma ReportStep(t: System, ev: Event, a: nat)
    requires !PcOf(t, a).Reported? && PcOf(Next(t, ev), a).Reported?
    ensures ev == Advance(a) && PcOf(t, a).CheckTarget?
    ensures var f := PcOf(t, a).cur; f in t.target && t.target[f] == a
  {
  }

  /** When no other actor waits, an actor reports only a wait for its own message. */
  lemma LoneReport(s: System, evs: seq<Event>, ev: Event, a: nat)
    requires Init(s)
    requires !PcOf(Run(s, evs), a).Reported? && PcOf(Run(s, evs + [ev]), a).Reported?
    requires forall k, b :: 0 <= k <= |evs| && b in Run(s, evs[..k]).waitingOn ==> b == a
    ensures var t := Run(s, evs); a in t.waitingOn && t.waitingOn[a] in s.target && s.target[t.waitingOn[a]] == a
  {
    ReportsAreFounded(s, evs, ev, a);
    var trail := Trail(s, evs, a);
    hide Run, Trail;
    if |trail| > 1 { FirstLead(s, evs, a, trail); }
  }

  lemma FirstLead(s: System, evs: seq<Event>, a: nat, trail: seq<Seen>)
    requires Founded(s, evs, a, trail) && |trail| > 1
    ensures exists k, b :: 0 <= k <= |evs| && b in Run(s, evs[..k]).waitingOn && b != a
  {
    assert Leads(s, evs, a, trail[0].future, trail[1]);
    assert s.target[trail[0].future] in Run(s, evs[..trail[1].at]).waitingOn;
  }

  /** An actor that waits when no other does parks after at most three steps, and reports instead exactly when
      its pending future is its own to settle. */
  lemma LoneWaitParks(s: System, a: nat, f: nat)
    requires PcOf(s, a).Idle? && forall b | b in s.waitingOn :: b == a
    ensures var t := Run(s, [Begin(a, f), Advance(a), Advance(a), Advance(a)]);
      && PcOf(t, a) == (if f !in s.settled && f in s.target && s.target[f] == a then Reported else Parked)
      && (PcOf(t, a).Parked? ==> a in t.waitingOn && t.waitingOn[a] == f)
  {
    var s1 := Next(s, Begin(a, f));
    var s2 := Next(s1, Advance(a));
    var s3 := Next(s2, Advance(a));
    var s4 := Next(s3, Advance(a));
    assert PcOf(s4, a) == if f !in s.settled && f in s.target && s.target[f] == a then Reported else Parked;
    assert PcOf(s4, a).Parked? ==> a in s4.waitingOn && s4.waitingOn[a] == f;
    hide Next;
    RunFour(s, Begin(a, f), Advance(a), Advance(a), Advance(a));
  }

  lemma RunFour(s: System, a: Event, b: Event, c: Event, d: Event)
    ensures Run(s, [a, b, c, d]) == Next(Next(Next(Next(s, a), b), c), d)
  {
    hide Next;
    assert [] + [a] == [a] && [a] + [b] == [a, b] && [a, b] + [c] == [a, b, c] && [a, b, c] + [d] == [a, b, c, d];
    RunLast(s, [], a);
    RunLast(s, [a], b);
    RunLast(s, [a, b], c);
    RunLast(s, [a, b, c], d);
  }

  // ----- A walk ends -----

  function Alone(a: nat, n: nat): seq<Event> { seq(n, i => Advance(a)) }

  /** Steps a walk has left at most. */
  function StepsLeft(pc: Pc): nat {
    match pc
    case CheckState(_, k) => if k < MAX_WALK then 3 * (MAX_WALK - k) else 3
    case CheckTarget(_, k) => if k < MAX_WALK then 3 * (MAX_WALK - k) - 1 else 2
    case ReadRecord(_, k) => if k < MAX_WALK then 3 * (MAX_WALK - k) - 2 else 1
    case _ => 0
  }

  lemma {:induction false} WalkRunsOut(s: System, a: nat, n: nat)
    requires n >= StepsLeft(PcOf(s, a)) && !PcOf(s, a).Idle?
    ensures var pc := PcOf(Run(s, Alone(a, n)), a); pc.Parked? || pc.Reported?
    decreases n
  {
    if n > 0 {
      assert Alone(a, n)[1..] == Alone(a, n - 1) && Alone(a, n)[0] == Advance(a);
      WalkRunsOut(Next(s, Advance(a)), a, n - 1);
    }
  }

  /** However long the chain, and though it may be a ring of records that never leads back, an actor's walk ends
      after at most 768 of its own steps: it parks or reports. */
  lemma WalksEnd(s: System, a: nat)
    requires Inv(s) && !PcOf(s, a).Idle?
    ensures var pc := PcOf(Run(s, Alone(a, 768)), a); pc.Parked? || pc.Reported?
  {
    assert WalkOk(s, a);
    WalkRunsOut(s, a, 768);
  }
}
