/** The tables of a debug session and the handshake between its threads and the client. `Session` is what
    the session lock guards; each function on it is one critical section, and `World` adds where the threads
    inside onStopped are. The class `DapServer` is the server that changes the tables in place. */
module DapSession {

  type ThreadId = nat

  /** One counter numbers frames and scopes alike. */
  type Handle = nat

  type Frame = nat

  type Task = nat

  // ----- What the lock guards -----

  datatype Snapshot = Snapshot(top: Frame, callStack: seq<Frame>)

  datatype ThreadRec = ThreadRec(stopped: bool, frame: Snapshot, resumeReady: bool, tasks: seq<Task>)

  datatype FrameRef = FrameRef(thread: ThreadId, frame: Frame)

  datatype VarRef = VarRef(thread: ThreadId, frameId: Handle)

  datatype Session = Session(
    threads: map<ThreadId, ThreadRec>,
    frameTable: map<Handle, FrameRef>,
    varRefTable: map<Handle, VarRef>,
    nextHandle: Handle,
    inStop: int,
    shuttingDown: bool)
  {
    predicate IsStopped(t: ThreadId) { t in threads && threads[t].stopped }

    predicate IsReleased(t: ThreadId) { t in threads && threads[t].resumeReady }

    function StoppedThreads(): set<ThreadId> { set t | t in threads && threads[t].stopped }
  }

  const NEW_THREAD := ThreadRec(false, Snapshot(0, []), false, [])

  const NEW_SESSION := Session(map[], map[], map[], 1, 0, false)

  function RecOf(s: Session, t: ThreadId): ThreadRec { if t in s.threads then s.threads[t] else NEW_THREAD }

  /** Oldest first; a stop without a call stack is its one frame. */
  function StackOf(f: Snapshot): seq<Frame> { if f.callStack != [] then f.callStack else [f.top] }

  /** Frame `i` of a stop, counted from the innermost: from the end of its call stack, which names the
      frames oldest first; without one the stop's own frame is the only one. */
  predicate IsShown(f: Snapshot, i: nat, frame: Frame) {
    if f.callStack == [] then i == 0 && frame == f.top
    else i < |f.callStack| && frame == f.callStack[|f.callStack| - 1 - i]
  }

  function FrameCount(f: Snapshot): nat { if f.callStack == [] then 1 else |f.callStack| }

  // ----- The critical sections -----

  function Enter(s: Session, t: ThreadId, f: Snapshot): Session {
    if s.shuttingDown then s
    else s.(threads := s.threads[t := ThreadRec(true, f, false, RecOf(s, t).tasks)], inStop := s.inStop + 1)
  }

  function PopTask(s: Session, t: ThreadId): Session {
    var r := RecOf(s, t);
    s.(threads := s.threads[t := r.(tasks := if r.tasks == [] then [] else r.tasks[1..])])
  }

  function WithoutHandlesOf(s: Session, t: ThreadId): Session {
    s.(frameTable := map h | h in s.frameTable && s.frameTable[h].thread != t :: s.frameTable[h],
       varRefTable := map h | h in s.varRefTable && s.varRefTable[h].thread != t :: s.varRefTable[h])
  }

  function Leave(s: Session, t: ThreadId): Session {
    WithoutHandlesOf(s, t).(threads := s.threads[t := RecOf(s, t).(stopped := false, tasks := [])], inStop := s.inStop - 1)
  }

  function Start(s: Session, t: ThreadId): Session { s.(threads := s.threads[t := RecOf(s, t)]) }

  function Exit(s: Session, t: ThreadId): Session {
    if s.IsStopped(t) then s else s.(threads := s.threads - {t})
  }

  function Resume(s: Session, t: ThreadId): Session {
    if s.IsStopped(t) then s.(threads := s.threads[t := s.threads[t].(resumeReady := true)]) else s
  }

  predicate TakesTasks(s: Session, t: ThreadId) { s.IsStopped(t) && !s.threads[t].resumeReady }

  function Queue(s: Session, t: ThreadId, task: Task): Session {
    if TakesTasks(s, t) then s.(threads := s.threads[t := s.threads[t].(tasks := s.threads[t].tasks + [task])]) else s
  }

  /** How many frames a stackTrace request shows: from `start`, innermost first, at most `levels` if positive. */
  function Shown(s: Session, t: ThreadId, start: nat, levels: int): (n: nat) {
    var total := if s.IsStopped(t) then |StackOf(s.threads[t].frame)| else 0;
    var left := if start < total then total - start else 0;
    if 0 < levels < left then levels else left
  }

  function StackTrace(s: Session, t: ThreadId, start: nat, levels: int): Session {
    var n, first := Shown(s, t, start, levels), s.nextHandle;
    if n == 0 then s else
    s.(frameTable := WithFrames(s.frameTable, t, StackOf(s.threads[t].frame), start, first, n), nextHandle := first + n)
  }

  /** `n` frames of a stack, from `start` and innermost first, under the handles from `first` on. */
  function WithFrames(table: map<Handle, FrameRef>, t: ThreadId, stack: seq<Frame>, start: nat, first: Handle, n: nat): map<Handle, FrameRef>
    requires n == 0 || start + n <= |stack|
  {
    if n == 0 then table
    else WithFrames(table, t, stack, start, first, n - 1)[first + n - 1 := FrameRef(t, stack[|stack| - 1 - start - (n - 1)])]
  }

  lemma {:induction false} WithFramesAt(table: map<Handle, FrameRef>, t: ThreadId, stack: seq<Frame>, start: nat, first: Handle, n: nat, h: Handle)
    requires n == 0 || start + n <= |stack|
    ensures var r := WithFrames(table, t, stack, start, first, n);
      && (h in r <==> h in table || first <= h < first + n)
      && (first <= h < first + n ==> r[h] == FrameRef(t, stack[|stack| - 1 - start - (h - first)]))
      && (h in table && !(first <= h < first + n) ==> r[h] == table[h])
  {
    if n != 0 { WithFramesAt(table, t, stack, start, first, n - 1, h); }
  }

  function Scopes(s: Session, frameId: Handle): Session {
    if frameId !in s.frameTable then s
    else s.(varRefTable := s.varRefTable[s.nextHandle := VarRef(s.frameTable[frameId].thread, frameId)], nextHandle := s.nextHandle + 1)
  }

  function Shutdown(s: Session): Session {
    s.(shuttingDown := true, threads := map t | t in s.threads :: s.threads[t].(resumeReady := true))
  }

  // ----- The server -----

  method AnyOf<T(0)>(s: set<T>) returns (x: T)
    requires s != {}
    ensures x in s
  {
    x :| x in s;
  }

  lemma SameMap<K, V>(a: map<K, V>, b: map<K, V>)
    requires forall k :: k in a <==> k in b
    requires forall k | k in a :: a[k] == b[k]
    ensures a == b
  {
  }

  class DapServer {
    var threads: map<ThreadId, ThreadRec>
    var frameTable: map<Handle, FrameRef>
    var varRefTable: map<Handle, VarRef>
    var nextHandle: Handle
    var inStop: int
    var shuttingDown: bool

    ghost function State(): Session
      reads this
    {
      Session(threads, frameTable, varRefTable, nextHandle, inStop, shuttingDown)
    }

    constructor ()
      ensures State() == NEW_SESSION
    {
      threads, frameTable, varRefTable := map[], map[], map[];
      nextHandle, inStop, shuttingDown := 1, 0, false;
    }

    method ThreadRecOf(t: ThreadId) returns (r: ThreadRec)
      modifies `threads
      ensures r == RecOf(old(State()), t) && threads == old(threads)[t := r]
    {
      if t !in threads { threads := threads[t := NEW_THREAD]; }
      r := threads[t];
    }

    /** The first critical section of onStopped. False when the session is over: the thread goes on. */
    method OnStopped(t: ThreadId, f: Snapshot) returns (parks: bool)
      modifies this
      ensures State() == Enter(old(State()), t, f) && parks == !old(shuttingDown)
    {
      if shuttingDown { return false; }
      var r := ThreadRecOf(t);
      threads := threads[t := r.(stopped := true, frame := f, resumeReady := false)];
      inStop := inStop + 1;
      parks := true;
    }

    /** One turn of the wait loop for a thread that woke up: it leaves, or it takes a task to run. */
    method WaitTurn(t: ThreadId) returns (leaves: bool, task: Task)
      requires t in threads && (threads[t].resumeReady || threads[t].tasks != [])
      modifies this
      ensures leaves == old(threads[t].resumeReady)
      ensures State() == if leaves then Leave(old(State()), t) else PopTask(old(State()), t)
      ensures !leaves ==> task == old(threads[t].tasks[0])
    {
      var r := threads[t];
      leaves, task := r.resumeReady, 0;
      if !leaves {
        task := r.tasks[0];
        threads := threads[t := r.(tasks := r.tasks[1..])];
        return;
      }
      threads := threads[t := r.(stopped := false, tasks := [])];
      DropHandlesOf(t);
      inStop := inStop - 1;
    }

    method DropHandlesOf(t: ThreadId)
      modifies `frameTable, `varRefTable
      ensures State() == WithoutHandlesOf(old(State()), t)
    {
      var left := frameTable.Keys;
      while left != {}
        invariant left <= frameTable.Keys <= old(frameTable).Keys && varRefTable == old(varRefTable)
        invariant forall h | h in frameTable :: frameTable[h] == old(frameTable)[h] && (h !in left ==> frameTable[h].thread != t)
        invariant forall h | h in old(frameTable) && old(frameTable)[h].thread != t :: h in frameTable
        decreases left
      {
        var h := AnyOf(left);
        if frameTable[h].thread == t { frameTable := frameTable - {h}; }
        left := left - {h};
      }
      SameMap(frameTable, WithoutHandlesOf(old(State()), t).frameTable);
      var rest := varRefTable.Keys;
      while rest != {}
        invariant rest <= varRefTable.Keys <= old(varRefTable).Keys && frameTable == WithoutHandlesOf(old(State()), t).frameTable
        invariant forall h | h in varRefTable :: varRefTable[h] == old(varRefTable)[h] && (h !in rest ==> varRefTable[h].thread != t)
        invariant forall h | h in old(varRefTable) && old(varRefTable)[h].thread != t :: h in varRefTable
        decreases rest
      {
        var h := AnyOf(rest);
        if varRefTable[h].thread == t { varRefTable := varRefTable - {h}; }
        rest := rest - {h};
      }
      SameMap(varRefTable, WithoutHandlesOf(old(State()), t).varRefTable);
    }

    method OnThreadEvent(t: ThreadId, started: bool)
      modifies this
      ensures State() == if started then Start(old(State()), t) else Exit(old(State()), t)
    {
      if started {
        var r := ThreadRecOf(t);
      } else if t in threads && !threads[t].stopped {
        threads := threads - {t};
      }
    }

    /** The part of runOnStoppedThread under the lock. False when the thread takes no task. */
    method RunOnStoppedThread(t: ThreadId, task: Task) returns (queued: bool)
      modifies this
      ensures State() == Queue(old(State()), t, task) && queued == TakesTasks(old(State()), t)
    {
      if t !in threads || !threads[t].stopped || threads[t].resumeReady { return false; }
      threads := threads[t := threads[t].(tasks := threads[t].tasks + [task])];
      queued := true;
    }

    method HandleResume(t: ThreadId)
      modifies this
      ensures State() == Resume(old(State()), t)
    {
      if t in threads && threads[t].stopped { threads := threads[t := threads[t].(resumeReady := true)]; }
    }

    /** The handles of the frames shown, innermost first. */
    method HandleStackTrace(t: ThreadId, start: nat, levels: int) returns (handles: seq<Handle>)
      modifies this
      ensures State() == StackTrace(old(State()), t, start, levels)
      ensures |handles| == Shown(old(State()), t, start, levels)
      ensures forall i | 0 <= i < |handles| :: handles[i] == old(nextHandle) + i
      ensures handles != [] ==> t in old(threads) && old(threads)[t].stopped
      ensures forall i | 0 <= i < |handles| ::
                handles[i] in frameTable && frameTable[handles[i]].thread == t
                && IsShown(old(threads)[t].frame, start + i, frameTable[handles[i]].frame)
      ensures var n := if t in old(threads) && old(threads)[t].stopped then FrameCount(old(threads)[t].frame) else 0;
        |handles| == if start >= n then 0 else if 0 < levels < n - start then levels else n - start
    {
      handles := [];
      ghost var was, n := State(), Shown(State(), t, start, levels);
      var stack: seq<Frame> := [];
      if t in threads && threads[t].stopped { stack := StackOf(threads[t].frame); }
      var i := start;
      while i < |stack| && !(0 < levels <= |handles|)
        invariant i == start + |handles| && |handles| <= n && nextHandle == was.nextHandle + |handles|
        invariant State() == was.(frameTable := frameTable, nextHandle := nextHandle)
        invariant forall k | 0 <= k < |handles| :: handles[k] == was.nextHandle + k
        invariant n == 0 || start + n <= |stack|
        invariant frameTable == WithFrames(was.frameTable, t, stack, start, was.nextHandle, |handles|)
      {
        ghost var k := |handles|;
        handles := handles + [nextHandle];
        frameTable := frameTable[nextHandle := FrameRef(t, stack[|stack| - 1 - i])];
        nextHandle := nextHandle + 1;
        i := i + 1;
        assert frameTable == WithFrames(was.frameTable, t, stack, start, was.nextHandle, k + 1);
      }
      forall h | was.nextHandle <= h < was.nextHandle + |handles|
        ensures h in frameTable && frameTable[h] == FrameRef(t, stack[|stack| - 1 - start - (h - was.nextHandle)])
      {
        WithFramesAt(was.frameTable, t, stack, start, was.nextHandle, |handles|, h);
      }
    }

    method HandleScopes(frameId: Handle) returns (handles: seq<Handle>)
      modifies this
      ensures State() == Scopes(old(State()), frameId)
      ensures handles == if frameId in old(frameTable) then [old(nextHandle)] else []
    {
      handles := [];
      if frameId in frameTable {
        handles := [nextHandle];
        varRefTable := varRefTable[nextHandle := VarRef(frameTable[frameId].thread, frameId)];
        nextHandle := nextHandle + 1;
      }
    }

    method ShutdownDebuggee()
      modifies this
      ensures State() == Shutdown(old(State()))
    {
      shuttingDown := true;
      var left := threads.Keys;
      while left != {}
        invariant left <= threads.Keys == old(threads).Keys
        invariant State() == Session(threads, old(frameTable), old(varRefTable), old(nextHandle), old(inStop), true)
        invariant forall t | t in threads :: threads[t] == if t in left then old(threads)[t] else old(threads)[t].(resumeReady := true)
        decreases left
      {
        var t := AnyOf(left);
        threads := threads[t := threads[t].(resumeReady := true)];
        left := left - {t};
      }
      SameMap(threads, Shutdown(old(State())).threads);
    }
  }

  // ----- Runs -----

  /** A thread inside onStopped: telling the client, waiting, or running a task it took. */
  datatype Phase = Announcing | Waiting | Running

  datatype Activation = Activation(thread: ThreadId, phase: Phase)

  /** Code run by a task may stop its thread again: such a thread is inside more than once, and its last
      activation is the one at work. `issued` are the handles given out so far. */
  datatype World = World(s: Session, inside: seq<Activation>, issued: seq<Handle>)

  datatype Step =
    | Stop(thread: ThreadId, frame: Snapshot)
    | Announced(thread: ThreadId)
    | TakeTask(thread: ThreadId)
    | FinishTask(thread: ThreadId)
    | GoOn(thread: ThreadId)
    | Started(thread: ThreadId)
    | Exited(thread: ThreadId)
    | ResumeRequest(thread: ThreadId)
    | Inspect(thread: ThreadId, task: Task)
    | StackTraceRequest(thread: ThreadId, start: nat, levels: int)
    | ScopesRequest(frameId: Handle)
    | EndSession

  const NEW_WORLD := World(NEW_SESSION, [], [])

  /** The place of a thread's last activation, the length of the list if it is not inside. */
  function Last(inside: seq<Activation>, t: ThreadId): (i: nat)
    ensures i <= |inside| && (i < |inside| ==> inside[i].thread == t)
    ensures i < |inside| ==> forall j | i < j < |inside| :: inside[j].thread != t
    ensures i == |inside| ==> forall j | 0 <= j < |inside| :: inside[j].thread != t
  {
    if inside == [] then 0
    else if inside[|inside| - 1].thread == t then |inside| - 1
    else
      var i := Last(inside[..|inside| - 1], t);
      if i == |inside| - 1 then |inside| else i
  }

  predicate Inside(w: World, t: ThreadId) { Last(w.inside, t) < |w.inside| }

  predicate At(w: World, t: ThreadId, p: Phase) { Inside(w, t) && w.inside[Last(w.inside, t)].phase == p }

  /** What the threads and the client can do. A thread runs script code when it is not inside, or in a task. */
  predicate Can(w: World, step: Step) {
    match step
    case Stop(t, _) => !Inside(w, t) || At(w, t, Running)
    case Announced(t) => At(w, t, Announcing)
    case TakeTask(t) => At(w, t, Waiting) && !w.s.IsReleased(t) && RecOf(w.s, t).tasks != []
    case FinishTask(t) => At(w, t, Running)
    case GoOn(t) => At(w, t, Waiting) && w.s.IsReleased(t)
    case Exited(t) => !Inside(w, t)
    case _ => true
  }

  function At'(inside: seq<Activation>, t: ThreadId, p: Phase): seq<Activation> {
    var i := Last(inside, t);
    if i < |inside| then inside[i := Activation(t, p)] else inside
  }

  function Without(inside: seq<Activation>, t: ThreadId): seq<Activation> {
    var i := Last(inside, t);
    if i < |inside| then inside[..i] + inside[i + 1..] else inside
  }

  function Counted(first: Handle, n: nat): seq<Handle> { seq(n, i => first + i) }

  function Do(w: World, step: Step): World {
    match step
    case Stop(t, f) => w.(s := Enter(w.s, t, f), inside := if w.s.shuttingDown then w.inside else w.inside + [Activation(t, Announcing)])
    case Announced(t) => w.(inside := At'(w.inside, t, Waiting))
    case TakeTask(t) => w.(s := PopTask(w.s, t), inside := At'(w.inside, t, Running))
    case FinishTask(t) => w.(inside := At'(w.inside, t, Waiting))
    case GoOn(t) => w.(s := Leave(w.s, t), inside := Without(w.inside, t))
    case Started(t) => w.(s := Start(w.s, t))
    case Exited(t) => w.(s := Exit(w.s, t))
    case ResumeRequest(t) => w.(s := Resume(w.s, t))
    case Inspect(t, task) => w.(s := Queue(w.s, t, task))
    case StackTraceRequest(t, start, levels) =>
      w.(s := StackTrace(w.s, t, start, levels), issued := w.issued + Counted(w.s.nextHandle, Shown(w.s, t, start, levels)))
    case ScopesRequest(f) =>
      w.(s := Scopes(w.s, f), issued := w.issued + if f in w.s.frameTable then [w.s.nextHandle] else [])
    case EndSession => w.(s := Shutdown(w.s))
  }

  /** The world after a run; a step that cannot be taken ends it. */
  function Run(w: World, steps: seq<Step>): World {
    if steps == [] then w else Do(Run(w, steps[..|steps| - 1]), steps[|steps| - 1])
  }

  predicate CanRun(w: World, steps: seq<Step>) {
    steps == [] || (CanRun(w, steps[..|steps| - 1]) && Can(Run(w, steps[..|steps| - 1]), steps[|steps| - 1]))
  }

  // ----- What every step keeps -----

  ghost predicate HandlesKept(w: World) {
    && (forall h | h in w.s.frameTable :: h in w.issued && w.s.IsStopped(w.s.frameTable[h].thread))
    && (forall h | h in w.s.varRefTable ::
          h in w.issued && w.s.varRefTable[h].frameId in w.s.frameTable
          && w.s.frameTable[w.s.varRefTable[h].frameId].thread == w.s.varRefTable[h].thread)
    && (forall h | h in w.issued :: h < w.s.nextHandle)
    && (forall i, j | 0 <= i < j < |w.issued| :: w.issued[i] < w.issued[j])
  }

  ghost predicate ThreadsKept(w: World) {
    && (forall t | t in w.s.threads && w.s.threads[t].tasks != [] :: w.s.threads[t].stopped)
    && (forall t | w.s.IsStopped(t) :: Inside(w, t))
    && (forall i | 0 <= i < |w.inside| :: w.s.IsStopped(w.inside[i].thread) || w.s.IsReleased(w.inside[i].thread))
    && (w.s.shuttingDown ==> forall i | 0 <= i < |w.inside| :: w.s.IsReleased(w.inside[i].thread))
    && w.s.inStop == |w.inside|
  }

  ghost predicate Kept(w: World) { HandlesKept(w) && ThreadsKept(w) }

  lemma InsideAt(inside: seq<Activation>, t: ThreadId, i: nat)
    requires i < |inside| && inside[i].thread == t
    ensures Last(inside, t) < |inside|
  {
  }

  /** Moving, adding or taking away activations of one thread leaves every other inside. */
  lemma OthersStay(inside: seq<Activation>, t: ThreadId, p: Phase, u: ThreadId)
    requires Last(inside, u) < |inside|
    ensures Last(At'(inside, t, p), u) < |At'(inside, t, p)|
    ensures Last(inside + [Activation(t, p)], u) < |inside| + 1
    ensures u != t ==> Last(Without(inside, t), u) < |Without(inside, t)|
  {
    var i, l := Last(inside, u), Last(inside, t);
    InsideAt(At'(inside, t, p), u, i);
    InsideAt(inside + [Activation(t, p)], u, i);
    if u != t { InsideAt(Without(inside, t), u, if l < i then i - 1 else i); }
  }

  lemma NewInside(inside: seq<Activation>, t: ThreadId, p: Phase)
    ensures Last(inside + [Activation(t, p)], t) < |inside| + 1
  {
    InsideAt(inside + [Activation(t, p)], t, |inside|);
  }

  lemma CountedRises(issued: seq<Handle>, first: Handle, n: nat)
    requires forall i, j | 0 <= i < j < |issued| :: issued[i] < issued[j]
    requires forall h | h in issued :: h < first
    ensures var all := issued + Counted(first, n);
      && (forall i, j | 0 <= i < j < |all| :: all[i] < all[j])
      && (forall h :: h in all <==> h in issued || first <= h < first + n)
  {
    var all := issued + Counted(first, n);
    forall h | h in issued || first <= h < first + n ensures h in all {
      if h !in issued { assert all[|issued| + h - first] == h; }
    }
    forall i, j | 0 <= i < j < |all| ensures all[i] < all[j] {
      if i < |issued| { assert issued[i] in issued; }
    }
  }

  lemma DoKeepsHandles(w: World, step: Step)
    requires Kept(w) && Can(w, step)
    ensures HandlesKept(Do(w, step))
  {
    match step
    case StackTraceRequest(t, start, levels) => StackTraceKeeps(w, t, start, levels);
    case ScopesRequest(f) => ScopesKeeps(w, f);
    case GoOn(t) =>
      hide Without, Last, Can;
    case _ =>
      hide At', Last, Can, StackTrace, Scopes, Counted, Shown, Leave;
  }

  lemma StackTraceAt(s: Session, t: ThreadId, start: nat, levels: int, h: Handle)
    ensures var now, n := StackTrace(s, t, start, levels), Shown(s, t, start, levels);
      && (h in now.frameTable <==> h in s.frameTable || s.nextHandle <= h < s.nextHandle + n)
      && (s.nextHandle <= h < s.nextHandle + n ==> s.IsStopped(t) && now.frameTable[h].thread == t)
      && (h in s.frameTable && h < s.nextHandle ==> now.frameTable[h] == s.frameTable[h])
  {
    var n := Shown(s, t, start, levels);
    if n != 0 { WithFramesAt(s.frameTable, t, StackOf(s.threads[t].frame), start, s.nextHandle, n, h); }
  }

  lemma StackTraceKeeps(w: World, t: ThreadId, start: nat, levels: int)
    requires HandlesKept(w)
    ensures HandlesKept(Do(w, StackTraceRequest(t, start, levels)))
  {
    var now := Do(w, StackTraceRequest(t, start, levels));
    var n, first := Shown(w.s, t, start, levels), w.s.nextHandle;
    CountedRises(w.issued, first, n);
    assert now.issued == w.issued + Counted(first, n) && now.s.nextHandle == first + n;
    assert now.s == StackTrace(w.s, t, start, levels);
    assert now.s.varRefTable == w.s.varRefTable && now.s.threads == w.s.threads;
    hide Counted, Do, StackTrace, Shown, WithFrames;
    forall h | h in now.s.frameTable ensures h in now.issued && now.s.IsStopped(now.s.frameTable[h].thread) {
      StackTraceAt(w.s, t, start, levels, h);
    }
    forall h | h in now.s.varRefTable
      ensures h in now.issued && now.s.varRefTable[h].frameId in now.s.frameTable
      ensures now.s.frameTable[now.s.varRefTable[h].frameId].thread == now.s.varRefTable[h].thread
    {
      var f := w.s.varRefTable[h].frameId;
      assert f in w.s.frameTable && f in w.issued;
      StackTraceAt(w.s, t, start, levels, f);
    }
  }

  lemma ScopesKeeps(w: World, f: Handle)
    requires HandlesKept(w)
    ensures HandlesKept(Do(w, ScopesRequest(f)))
  {
    var now, first := Do(w, ScopesRequest(f)), w.s.nextHandle;
    if f !in w.s.frameTable { return; }
    CountedRises(w.issued, first, 1);
    assert now.issued == w.issued + Counted(first, 1) by { assert Counted(first, 1) == [first]; }
    assert now.s == w.s.(varRefTable := w.s.varRefTable[first := VarRef(w.s.frameTable[f].thread, f)], nextHandle := first + 1);
    hide Counted, Do, Scopes;
  }

  lemma DoKeepsStopped(w: World, step: Step, u: ThreadId)
    requires Kept(w) && Can(w, step) && Do(w, step).s.IsStopped(u)
    ensures Inside(Do(w, step), u)
  {
    if w.s.IsStopped(u) { assert Inside(w, u); }
    match step
    case Stop(t, _) =>
      if u == t && !w.s.shuttingDown { NewInside(w.inside, t, Announcing); } else if u != t { OthersStay(w.inside, t, Announcing, u); }
    case Announced(t) => OthersStay(w.inside, t, Waiting, u);
    case TakeTask(t) => OthersStay(w.inside, t, Running, u);
    case FinishTask(t) => OthersStay(w.inside, t, Waiting, u);
    case GoOn(t) => OthersStay(w.inside, t, Waiting, u);
    case _ =>
  }

  lemma DoKeepsTasks(w: World, step: Step, u: ThreadId)
    requires Kept(w) && Can(w, step) && u in Do(w, step).s.threads && Do(w, step).s.threads[u].tasks != []
    ensures Do(w, step).s.threads[u].stopped
  {
    if u in w.s.threads && w.s.threads[u].tasks != [] { assert w.s.threads[u].stopped; }
  }

  /** The activations after a step are those before it, but for one more or one less of its thread. */
  lemma InsideBefore(w: World, step: Step, i: nat) returns (j: nat)
    requires Can(w, step) && i < |Do(w, step).inside|
    ensures j < |w.inside| ==> w.inside[j].thread == Do(w, step).inside[i].thread
    ensures j >= |w.inside| ==> step.Stop? && !w.s.shuttingDown && step.thread == Do(w, step).inside[i].thread
  {
    var l := if step.GoOn? then Last(w.inside, step.thread) else |w.inside|;
    j := if i < l then i else i + 1;
  }

  lemma DoKeepsInside(w: World, step: Step, i: nat)
    requires Kept(w) && Can(w, step) && i < |Do(w, step).inside|
    ensures var s := Do(w, step).s; var u := Do(w, step).inside[i].thread;
      (s.IsStopped(u) || s.IsReleased(u)) && (s.shuttingDown ==> s.IsReleased(u))
  {
    var u := Do(w, step).inside[i].thread;
    var j := InsideBefore(w, step, i);
    if j < |w.inside| {
      assert w.inside[j].thread == u;
      assert w.s.IsStopped(u) || w.s.IsReleased(u);
      InsideAt(w.inside, u, j);
    }
    hide At', Without, WithoutHandlesOf, HandlesKept, StackTrace, Counted, Last;
  }

  lemma DoKeepsThreads(w: World, step: Step)
    requires Kept(w) && Can(w, step)
    ensures ThreadsKept(Do(w, step))
  {
    var now := Do(w, step);
    assert now.s.inStop == |now.inside|;
    hide Do, Can, Kept;
    forall u | now.s.IsStopped(u) ensures Inside(now, u) { DoKeepsStopped(w, step, u); }
    forall u | u in now.s.threads && now.s.threads[u].tasks != [] ensures now.s.threads[u].stopped { DoKeepsTasks(w, step, u); }
    forall i | 0 <= i < |now.inside| ensures now.s.IsStopped(now.inside[i].thread) || now.s.IsReleased(now.inside[i].thread) {
      DoKeepsInside(w, step, i);
    }
    if now.s.shuttingDown {
      forall i | 0 <= i < |now.inside| ensures now.s.IsReleased(now.inside[i].thread) { DoKeepsInside(w, step, i); }
    }
  }

  lemma {:induction false} RunKeeps(steps: seq<Step>)
    requires CanRun(NEW_WORLD, steps)
    ensures Kept(Run(NEW_WORLD, steps))
  {
    if steps != [] {
      var before := steps[..|steps| - 1];
      RunKeeps(before);
      DoKeepsHandles(Run(NEW_WORLD, before), steps[|steps| - 1]);
      DoKeepsThreads(Run(NEW_WORLD, before), steps[|steps| - 1]);
    }
  }

  // ----- The count of stopped threads -----

  /** Code that a task runs on a stopped thread stops there again. */
  predicate NestedStop(w: World, step: Step) { step.Stop? && Inside(w, step.thread) && !w.s.shuttingDown }

  function Threads(inside: seq<Activation>): set<ThreadId> { set i | 0 <= i < |inside| :: inside[i].thread }

  predicate Once(inside: seq<Activation>) { forall i, j | 0 <= i < j < |inside| :: inside[i].thread != inside[j].thread }

  lemma {:induction false} ThreadsCount(inside: seq<Activation>)
    ensures |Threads(inside)| <= |inside| && (|Threads(inside)| == |inside| <==> Once(inside))
  {
    if inside != [] {
      var n := |inside| - 1;
      var rest, t := inside[..n], inside[n].thread;
      ThreadsCount(rest);
      assert Threads(inside) == Threads(rest) + {t};
      if t in Threads(rest) {
        var i :| 0 <= i < n && rest[i].thread == t;
        assert inside[i].thread == inside[n].thread;
        assert Threads(inside) == Threads(rest);
      } else {
        assert forall i | 0 <= i < n :: rest[i].thread in Threads(rest);
        assert Once(rest) <==> Once(inside) by {
          if Once(rest) {
            forall i, j | 0 <= i < j < |inside| ensures inside[i].thread != inside[j].thread {
              assert inside[i] == rest[i];
              if j < n { assert inside[j] == rest[j]; }
            }
          } else {
            var i, j :| 0 <= i < j < n && rest[i].thread == rest[j].thread;
            assert inside[i].thread == inside[j].thread;
          }
        }
      }
    }
  }

  lemma SubsetCount<T>(a: set<T>, b: set<T>)
    requires a <= b
    ensures |a| <= |b| && (|a| == |b| <==> a == b)
  {
    assert |b| == |a| + |b - a| by { assert b == a + (b - a); }
    if |a| == |b| { assert b - a == {}; }
  }

  /** Each thread is inside once, and stopped as long as it is. */
  ghost predicate Simple(w: World) {
    Once(w.inside) && forall i | 0 <= i < |w.inside| :: w.s.IsStopped(w.inside[i].thread)
  }

  lemma StoppedAreInside(w: World)
    requires Kept(w)
    ensures w.s.StoppedThreads() <= Threads(w.inside)
  {
    forall t | t in w.s.StoppedThreads() ensures t in Threads(w.inside) {
      assert w.s.IsStopped(t);
      assert w.inside[Last(w.inside, t)].thread == t;
    }
  }

  /** In any state, the count is never too small, and it is exact in just the simple ones. */
  lemma StopCount(w: World)
    requires Kept(w)
    ensures |w.s.StoppedThreads()| <= w.s.inStop && (|w.s.StoppedThreads()| == w.s.inStop <==> Simple(w))
  {
    StoppedAreInside(w);
    ThreadsCount(w.inside);
    SubsetCount(w.s.StoppedThreads(), Threads(w.inside));
    if Simple(w) {
      assert forall t | t in Threads(w.inside) :: t in w.s.StoppedThreads();
    }
    if w.s.StoppedThreads() == Threads(w.inside) {
      assert forall i | 0 <= i < |w.inside| :: w.inside[i].thread in Threads(w.inside);
    }
  }

  lemma DoKeepsSimple(w: World, step: Step)
    requires Kept(w) && Can(w, step) && Simple(w)
    ensures Simple(Do(w, step)) <==> !NestedStop(w, step)
  {
    var now := Do(w, step);
    if NestedStop(w, step) {
      assert now.inside[Last(w.inside, step.thread)].thread == now.inside[|w.inside|].thread;
    } else {
      forall i, j | 0 <= i < j < |now.inside| ensures now.inside[i].thread != now.inside[j].thread { TwoBefore(w, step, i, j); }
      forall i | 0 <= i < |now.inside| ensures now.s.IsStopped(now.inside[i].thread) { StaysStopped(w, step, i); }
    }
  }

  lemma TwoBefore(w: World, step: Step, i: nat, j: nat)
    requires Can(w, step) && Once(w.inside) && !NestedStop(w, step) && i < j < |Do(w, step).inside|
    ensures Do(w, step).inside[i].thread != Do(w, step).inside[j].thread
  {
    if step.GoOn? {
      var l := Last(w.inside, step.thread);
      assert Do(w, step).inside[i] == w.inside[if i < l then i else i + 1];
      assert Do(w, step).inside[j] == w.inside[if j < l then j else j + 1];
    } else if step.Stop? && j == |w.inside| {
      assert w.inside[i].thread != step.thread;
    } else {
      assert Do(w, step).inside[i].thread == w.inside[i].thread && Do(w, step).inside[j].thread == w.inside[j].thread;
    }
  }

  lemma StaysStopped(w: World, step: Step, i: nat)
    requires Kept(w) && Can(w, step) && Simple(w) && !NestedStop(w, step) && i < |Do(w, step).inside|
    ensures Do(w, step).s.IsStopped(Do(w, step).inside[i].thread)
  {
    hide At', HandlesKept, Counted, Shown, WithFrames, WithoutHandlesOf;
    var u := Do(w, step).inside[i].thread;
    var j := InsideBefore(w, step, i);
    if j < |w.inside| {
      assert w.s.IsStopped(w.inside[j].thread);
      InsideAt(w.inside, u, j);
      if step.GoOn? {
        var l := Last(w.inside, step.thread);
        assert Do(w, step).inside[i] == w.inside[if i < l then i else i + 1];
        assert u != step.thread;
      }
    }
  }

  /** Over a whole run the count is the number of stopped threads if and only if no task stops its own thread. */
  lemma {:induction false} StopCountExact(steps: seq<Step>)
    requires CanRun(NEW_WORLD, steps)
    ensures (forall k | 0 <= k <= |steps| :: CountIsExact(steps[..k])) <==>
            (forall k | 0 <= k < |steps| :: !NestedStop(Run(NEW_WORLD, steps[..k]), steps[k]))
  {
    hide NestedStop, CanRun, Run;
    assert CountIsExact([]) by { ExactAtFirst(); }
    hide CountIsExact;
    if forall k | 0 <= k <= |steps| :: CountIsExact(steps[..k]) {
      forall k | 0 <= k < |steps| ensures !NestedStop(Run(NEW_WORLD, steps[..k]), steps[k]) {
        assert CountIsExact(steps[..k]) && CountIsExact(steps[..k + 1]);
        ExactSteps(steps, k);
      }
    }
    if forall k | 0 <= k < |steps| :: !NestedStop(Run(NEW_WORLD, steps[..k]), steps[k]) {
      for k := 0 to |steps|
        invariant steps[..0] == []
        invariant forall j | 0 <= j <= k :: CountIsExact(steps[..j])
      {
        ExactSteps(steps, k);
      }
    }
  }

  lemma ExactAtFirst()
    ensures CountIsExact([])
  {
    assert NEW_SESSION.StoppedThreads() == {};
  }

  ghost predicate CountIsExact(steps: seq<Step>) {
    var s := Run(NEW_WORLD, steps).s;
    |s.StoppedThreads()| == s.inStop
  }

  lemma {:induction false} CanRunPrefix(steps: seq<Step>, k: nat)
    requires CanRun(NEW_WORLD, steps) && k <= |steps|
    ensures CanRun(NEW_WORLD, steps[..k])
  {
    if k == |steps| {
      assert steps[..k] == steps;
    } else {
      var before := steps[..|steps| - 1];
      CanRunPrefix(before, k);
      assert before[..k] == steps[..k];
    }
  }

  lemma ExactSteps(steps: seq<Step>, k: nat)
    requires CanRun(NEW_WORLD, steps) && k < |steps| && CountIsExact(steps[..k])
    ensures CountIsExact(steps[..k + 1]) <==> !NestedStop(Run(NEW_WORLD, steps[..k]), steps[k])
  {
    CanRunPrefix(steps, k);
    CanRunPrefix(steps, k + 1);
    RunKeeps(steps[..k]);
    RunKeeps(steps[..k + 1]);
    var w := Run(NEW_WORLD, steps[..k]);
    assert steps[..k + 1][..k] == steps[..k] && steps[..k + 1][k] == steps[k];
    assert Run(NEW_WORLD, steps[..k + 1]) == Do(w, steps[k]) && Can(w, steps[k]);
    hide Run, CanRun, Do, Kept, Simple, Can;
    StopCount(w);
    StopCount(Do(w, steps[k]));
    DoKeepsSimple(w, steps[k]);
  }

  lemma RunNext(w: World, steps: seq<Step>, k: nat)
    requires k < |steps|
    ensures Run(w, steps[..k + 1]) == Do(Run(w, steps[..k]), steps[k])
    ensures CanRun(w, steps[..k + 1]) <==> CanRun(w, steps[..k]) && Can(Run(w, steps[..k]), steps[k])
  {
    assert steps[..k + 1][..k] == steps[..k] && steps[..k + 1][k] == steps[k];
  }

  /** One thread, no handles. */
  function Lone(inStop: int, r: ThreadRec, inside: seq<Activation>): World {
    World(Session(map[1 := r], map[], map[], 1, inStop, false), inside, [])
  }

  /** Formatting the variables of a stopped thread runs a method with a breakpoint in it. */
  function Nesting(f: Snapshot, task: Task): seq<Step> {
    [Stop(1, f), Announced(1), Inspect(1, task), TakeTask(1), Stop(1, f), ResumeRequest(1), Announced(1), GoOn(1)]
  }

  function NestedAt(f: Snapshot, task: Task, k: nat): World {
    var r := ThreadRec(true, f, false, []);
    if k == 0 then NEW_WORLD
    else if k == 1 then Lone(1, r, [Activation(1, Announcing)])
    else if k == 2 then Lone(1, r, [Activation(1, Waiting)])
    else if k == 3 then Lone(1, r.(tasks := [task]), [Activation(1, Waiting)])
    else if k == 4 then Lone(1, r, [Activation(1, Running)])
    else if k == 5 then Lone(2, r, [Activation(1, Running), Activation(1, Announcing)])
    else if k == 6 then Lone(2, r.(resumeReady := true), [Activation(1, Running), Activation(1, Announcing)])
    else if k == 7 then Lone(2, r.(resumeReady := true), [Activation(1, Running), Activation(1, Waiting)])
    else Lone(1, r.(stopped := false, resumeReady := true), [Activation(1, Running)])
  }

  lemma NestedStep(f: Snapshot, task: Task, k: nat)
    requires k < 8
    ensures Can(NestedAt(f, task, k), Nesting(f, task)[k]) && Do(NestedAt(f, task, k), Nesting(f, task)[k]) == NestedAt(f, task, k + 1)
  {
    var w, step, next := NestedAt(f, task, k), Nesting(f, task)[k], NestedAt(f, task, k + 1);
    if 5 < k { assert Last(w.inside, 1) == 1; }
    if k == 0 {
      assert Enter(w.s, 1, f).threads == next.s.threads;
    } else if k == 2 {
      assert w.s.threads[1].tasks + [task] == [task];
      assert Queue(w.s, 1, task).threads == next.s.threads;
    } else if k == 3 {
      assert w.s.threads[1].tasks[1..] == [];
      assert PopTask(w.s, 1).threads == next.s.threads;
    } else if k == 4 {
      assert Enter(w.s, 1, f).threads == next.s.threads;
    } else if k == 5 {
      assert Resume(w.s, 1).threads == next.s.threads;
    } else if k == 7 {
      assert Leave(w.s, 1) == next.s by { assert Leave(w.s, 1).threads == next.s.threads; }
      assert Without(w.inside, 1) == next.inside;
    }
    hide Enter, Queue, PopTask, Resume, Leave, StackTrace, Scopes, Start, Exit, Shutdown, Last;
  }

  lemma {:induction false} NestedRun(f: Snapshot, task: Task, k: nat)
    requires k <= 8
    ensures CanRun(NEW_WORLD, Nesting(f, task)[..k]) && Run(NEW_WORLD, Nesting(f, task)[..k]) == NestedAt(f, task, k)
  {
    if k != 0 {
      NestedRun(f, task, k - 1);
      NestedStep(f, task, k - 1);
      hide CanRun, Run, Do, Can, NestedAt;
      RunNext(NEW_WORLD, Nesting(f, task), k - 1);
    }
  }

  /** The input that fails: two stops are counted for one thread, and then one for none. */
  lemma NestedStopMiscounts(f: Snapshot, task: Task)
    ensures var run := Nesting(f, task)[..5];
      CanRun(NEW_WORLD, run) && Run(NEW_WORLD, run).s.inStop == 2 && Run(NEW_WORLD, run).s.StoppedThreads() == {1}
    ensures var run := Nesting(f, task);
      CanRun(NEW_WORLD, run) && Run(NEW_WORLD, run).s.inStop == 1 && Run(NEW_WORLD, run).s.StoppedThreads() == {}
  {
    NestedRun(f, task, 5);
    NestedRun(f, task, 8);
    assert Nesting(f, task)[..8] == Nesting(f, task);
    hide CanRun, Run, Nesting;
  }

  // ----- Waking up -----

  /** A parked thread with nothing to do is one that the client sees stopped, and its resume request wakes it. */
  lemma ParkedCanBeResumed(w: World, t: ThreadId)
    requires Kept(w) && At(w, t, Waiting) && !Can(w, GoOn(t)) && !Can(w, TakeTask(t))
    ensures w.s.IsStopped(t) && Can(Do(w, ResumeRequest(t)), GoOn(t))
  {
    var i := Last(w.inside, t);
    assert w.inside[i].thread == t;
  }

  /** A resume request holds until its thread goes on, if and only if the thread does not stop again first. */
  lemma ResumeLostExactly(w: World, t: ThreadId, step: Step)
    requires Kept(w) && Can(w, step) && Inside(w, t) && w.s.IsReleased(t) && step != GoOn(t)
    ensures Do(w, step).s.IsReleased(t) <==> !(NestedStop(w, step) && step.thread == t)
  {
    match step
    case Exited(u) => assert u != t;
    case TakeTask(u) => assert u != t;
    case _ =>
  }

  // ----- Shutting down -----

  function Left(inside: seq<Activation>): (n: nat)
    ensures n == 0 <==> inside == []
  {
    if inside == [] then 0
    else Left(inside[..|inside| - 1]) + if inside[|inside| - 1].phase.Waiting? then 1 else 2
  }

  /** What a thread inside onStopped does to get out. */
  predicate IsMove(step: Step) { step.Announced? || step.FinishTask? || step.GoOn? }

  /** After the shutdown every thread inside can move, and takes no further task. */
  lemma NoneStaysParked(w: World, t: ThreadId)
    requires Kept(w) && w.s.shuttingDown && Inside(w, t)
    ensures !Can(w, TakeTask(t)) && (Can(w, Announced(t)) || Can(w, FinishTask(t)) || Can(w, GoOn(t)))
  {
    assert w.s.IsReleased(w.inside[Last(w.inside, t)].thread);
  }

  lemma {:induction false} LeftChanges(inside: seq<Activation>, i: nat, p: Phase)
    requires i < |inside|
    ensures Left(inside[i := inside[i].(phase := p)]) ==
      Left(inside) + (if p.Waiting? then 1 else 2) - if inside[i].phase.Waiting? then 1 else 2
    ensures Left(inside[..i] + inside[i + 1..]) == Left(inside) - if inside[i].phase.Waiting? then 1 else 2
  {
    var n := |inside| - 1;
    var a, b := inside[i := inside[i].(phase := p)], inside[..i] + inside[i + 1..];
    if i == n {
      assert a[..n] == inside[..n] && b == inside[..n];
    } else {
      LeftChanges(inside[..n], i, p);
      assert a[..n] == inside[..n][i := inside[i].(phase := p)];
      assert b[..n - 1] == inside[..n][..i] + inside[..n][i + 1..];
    }
  }

  lemma MovesLessen(w: World, step: Step)
    requires Kept(w) && w.s.shuttingDown && Can(w, step)
    ensures Do(w, step).s.shuttingDown
    ensures Left(Do(w, step).inside) == Left(w.inside) - if IsMove(step) then 1 else 0
  {
    match step
    case Announced(t) => LeftChanges(w.inside, Last(w.inside, t), Waiting);
    case FinishTask(t) => LeftChanges(w.inside, Last(w.inside, t), Waiting);
    case GoOn(t) => LeftChanges(w.inside, Last(w.inside, t), Waiting);
    case TakeTask(t) => NoneStaysParked(w, t);
    case _ =>
  }

  function Moves(steps: seq<Step>): nat {
    if steps == [] then 0 else Moves(steps[..|steps| - 1]) + if IsMove(steps[|steps| - 1]) then 1 else 0
  }

  /** However a run goes on after the shutdown, its threads make no more moves than they had left then, and
      once none can move the count that the shutdown waits for is zero. */
  lemma {:induction false} ShutdownDrains(w: World, steps: seq<Step>)
    requires Kept(w) && w.s.shuttingDown && CanRun(w, steps)
    ensures var last := Run(w, steps);
      && Kept(last) && last.s.shuttingDown && Moves(steps) + Left(last.inside) == Left(w.inside)
      && ((forall m: Step | IsMove(m) :: !Can(last, m)) <==> last.s.inStop == 0)
  {
    if steps != [] {
      var before, step := steps[..|steps| - 1], steps[|steps| - 1];
      ShutdownDrains(w, before);
      DoKeepsHandles(Run(w, before), step);
      DoKeepsThreads(Run(w, before), step);
      MovesLessen(Run(w, before), step);
    }
    var last := Run(w, steps);
    hide Run, CanRun, Moves, Left, HandlesKept;
    if last.inside != [] {
      var t := last.inside[0].thread;
      InsideAt(last.inside, t, 0);
      NoneStaysParked(last, t);
      assert IsMove(Announced(t)) && IsMove(FinishTask(t)) && IsMove(GoOn(t));
    }
  }

  /** The shutdown itself is a step like any other: it can be taken at any time, and what it needs holds. */
  lemma EndSessionShutsDown(w: World)
    requires Kept(w)
    ensures Can(w, EndSession) && Do(w, EndSession).s.shuttingDown && Kept(Do(w, EndSession))
  {
    DoKeepsHandles(w, EndSession);
    DoKeepsThreads(w, EndSession);
  }
}
