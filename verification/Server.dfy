/**
 Scheduler, I/O manager and timers at work together: waiters that are triggered
 and timers that expire become queued tasks, running fibers register, cancel and
 set timers, idle workers dispatch and expire, and the idle fiber of a worker
 ends when `stopping(timeout)` is true.
*/
module Servers {
  import opened Wrappers
  import opened Schedulers
  import opened IoManagers
  import SchedulerRuns
  import IoRuns
  import Timers
  import TimerRuns

  datatype Server = Server(tasks: Sys, io: Io, book: Timers.Book)

  /** `who` is the worker that acts, if it is not a thread from outside; `fired` lists the
      timers an expiry takes. */
  datatype Act =
    | Step(e: Event)
    | Join(w: nat)
    | Check(w: nat)
    | Use(call: IoRuns.Call, fails: bool, who: Option<nat>)
    | Clock(time: TimerRuns.Call, fired: seq<Timers.Id>, who: Option<nat>)

  /** A running fiber, or a thread from outside. */
  predicate Caller(s: Sys, who: Option<nat>) { who.Some? ==> Runs(s, who.value) }

  predicate Idler(s: Sys, who: Option<nat>) { who.Some? && At(s, who.value, Idle) }

  /** Exactly the due timers; all of them are live. */
  ghost predicate AllDue(book: Timers.Book, now: nat, fired: seq<Timers.Id>)
  {
    AllLive(book, fired) && forall id :: id in fired <==> Timers.Due(book, now, id)
  }

  ghost predicate Possible(j: Server, a: Act)
  {
    match a
    case Step(e) => Schedulers.Possible(j.tasks, e) && !e.Begin? && !e.Check?
    case Join(w) => At(j.tasks, w, Waiting) && j.tasks.autoStop && j.tasks.stopping
    case Check(w) => At(j.tasks, w, Idle)
    case Use(call, _, who) =>
      && |j.io.contexts| >= 2 && IoRuns.Fit(j.io, call)
      && (if call.Dispatch? then Idler(j.tasks, who) else Caller(j.tasks, who))
      && (call.Add? && call.cb.None? ==> who.Some? && call.self == j.tasks.workers[who.value].phase.f)
    case Clock(time, fired, who) =>
      && (time.op.Reset? ==> time.op.id in j.book.timers)
      && (if time.op.Expire? || time.op.Poll? then Idler(j.tasks, who) else Caller(j.tasks, who))
      && (if time.op.Expire? then AllDue(j.book, time.now, fired) else fired == [])
  }

  ghost predicate WaitsFor(io: Io, t: Task)
  {
    exists fd: nat, d: Dir :: Waiter(io, fd, d) == Some(t)
  }

  predicate EndsOwn(s: Sys, e: Event, f: nat)
  {
    e.Return? && (e.how.Ends? || e.how.Throws?) && Runs(s, e.w) && s.workers[e.w].phase == Running(f, true)
  }

  /** What the clients owe: as for the scheduler alone, and a callback does not end while its
      fiber waits for an event, unless all other workers have left. */
  ghost predicate Fair(j: Server, a: Act)
  {
    a.Step? ==>
      && Schedulers.Fair(j.tasks, a.e)
      && forall f: nat :: EndsOwn(j.tasks, a.e, f) && WaitsFor(j.io, OfFiber(f)) ==>
           Private(j.tasks, Entry(OfFiber(f), None), a.e.w)
  }

  /** IOManager::stopping with the next timeout. */
  ghost predicate AllQuiet(j: Server)
  {
    Timers.Idle(j.book.timers) && j.io.pending == 0 && Stopping(j.tasks)
  }

  /** Tasks handed to the scheduler, in order. */
  function Handed(s: Sys, ts: seq<Task>): Sys
    decreases |ts|
  {
    if ts == [] then s else Handed(Submitted(s, Some(ts[0]), None), ts[1..])
  }

  ghost predicate AllLive(book: Timers.Book, fired: seq<Timers.Id>)
  {
    fired == [] || (Timers.Live(book.timers, fired[0]) && AllLive(book, fired[1..]))
  }

  ghost function Fired(book: Timers.Book, fired: seq<Timers.Id>): seq<Task>
    requires AllLive(book, fired)
  {
    if fired == [] then []
    else
      var cb := book.timers[fired[0]].cb.value;
      (if cb.Function? then [OfCallback(cb.code)] else []) + Fired(book, fired[1..])
  }

  ghost function After(j: Server, a: Act): Server
    requires Possible(j, a)
  {
    match a
    case Step(e) => j.(tasks := Schedulers.After(j.tasks, e))
    case Join(w) =>
      var done := j.io.pending == 0 && Stopping(j.tasks);
      j.(tasks := Moved(j.tasks, w, if done then Left else Head, 0, j.tasks.workers[w].idleDone))
    case Check(w) => j.(tasks := Moved(j.tasks, w, Head, -1, AllQuiet(j)))
    case Use(call, fails, _) =>
      var io := IoRuns.After(j.io, call, fails);
      var n := |j.io.handed|;
      j.(io := io, tasks := Handed(j.tasks, if n <= |io.handed| then io.handed[n..] else []))
    case Clock(time, fired, _) =>
      j.(book := TimerRuns.StepBook(j.book, time), tasks := Handed(j.tasks, Fired(j.book, fired)))
  }

  // ----- the invariant --------------------------------------------------------------------------

  /** A task that may be queued for any thread. */
  predicate Runnable(s: Sys, t: Task)
  {
    EntryOk(s, Entry(t, None))
  }

  /** The parts are sound, and whoever waits may be queued. */
  ghost predicate Sound(j: Server)
  {
    && Inv(j.tasks) && IoInv(j.io)
    && forall t :: WaitsFor(j.io, t) ==> Runnable(j.tasks, t)
  }

  lemma RunnableStays(s: Sys, t: Sys, x: Task)
    requires t.fibers == s.fibers && |t.workers| == |s.workers| && Runnable(s, x)
    requires forall w :: 0 <= w < |s.workers| ==> t.workers[w].own in {s.workers[w].own, None}
    requires forall w :: 0 <= w < |s.workers| && s.workers[w].phase.Left? ==> t.workers[w].phase.Left?
    ensures Runnable(t, x)
  {
    hide EntryOk;
    EntryStays(s, t, Entry(x, None));
  }

  /** What may be queued still may, when fibers and their owners are the same. */
  lemma StillSound(j: Server, u: Server)
    requires Sound(j) && Inv(u.tasks) && IoInv(u.io)
    requires u.tasks.fibers == j.tasks.fibers && |u.tasks.workers| == |j.tasks.workers|
    requires forall w :: 0 <= w < |j.tasks.workers| ==> u.tasks.workers[w].own in {j.tasks.workers[w].own, None}
    requires forall w :: 0 <= w < |j.tasks.workers| && j.tasks.workers[w].phase.Left? ==> u.tasks.workers[w].phase.Left?
    requires forall t :: WaitsFor(u.io, t) ==> WaitsFor(j.io, t) || Runnable(j.tasks, t)
    ensures Sound(u)
  {
    hide Inv, IoInv, WaitsFor, Runnable;
    forall t | WaitsFor(u.io, t)
      ensures Runnable(u.tasks, t)
    {
      RunnableStays(j.tasks, u.tasks, t);
    }
  }

  lemma {:induction false} HandedKeeps(s: Sys, ts: seq<Task>)
    requires Inv(s) && forall i :: 0 <= i < |ts| ==> Runnable(s, ts[i])
    ensures var t := Handed(s, ts); Inv(t) && t.fibers == s.fibers && t.workers == s.workers
    decreases |ts|
  {
    hide Inv, Runnable;
    if ts != [] {
      RunnableEntry(s, ts[0]);
      SubmitKeeps(s, Some(ts[0]), None);
      var t := Submitted(s, Some(ts[0]), None);
      forall i | 0 <= i < |ts[1..]|
        ensures Runnable(t, ts[1..][i])
      {
        RunnableStays(s, t, ts[i + 1]);
      }
      HandedKeeps(t, ts[1..]);
    }
  }

  lemma RunnableEntry(s: Sys, t: Task)
    requires Runnable(s, t)
    ensures EntryOk(s, Entry(t, None))
  {
  }

  /** A use of the manager hands over waiters it had, and makes at most one new waiter. */
  lemma UseHands(io: Io, call: IoRuns.Call, fails: bool)
    requires IoInv(io) && |io.contexts| >= 2 && IoRuns.Fit(io, call)
    ensures var t := IoRuns.After(io, call, fails);
            && IoInv(t) && |io.handed| <= |t.handed|
            && (forall k :: |io.handed| <= k < |t.handed| ==> WaitsFor(io, t.handed[k]))
            && forall x :: WaitsFor(t, x) ==>
                 WaitsFor(io, x) || (call.Add? && x == if call.cb.Some? then OfCallback(call.cb.value) else OfFiber(call.self))
  {
    hide IoInv, AddIn, DelIn, CancelIn, CancelAllIn, DispatchIn, Waiter, Real;
    var t := IoRuns.After(io, call, fails);
    match call
    case Add(fd, d, cb, self) => AddEffect(io, fd, d, cb, self, fails);
    case Del(fd, d) => DelEffect(io, fd, d, fails);
    case Cancel(fd, d) => CancelEffect(io, fd, d, fails);
    case CancelAll(fd) => CancelAllEffect(io, fd, fails);
    case Dispatch(fd, report) =>
      assert Real(report) * io.contexts[fd].events == io.contexts[fd].events * Real(report);
      DispatchEffect(io, fd, report, fails);
  }

  /** What may be queued for any thread still may, unless it ends as a callback's own fiber
      while another worker could take it. */
  lemma StaysRunnable(s: Sys, e: Event, t: Task)
    requires Inv(s) && Schedulers.Possible(s, e) && Runnable(s, t)
    requires t.OfFiber? && EndsOwn(s, e, t.f) ==> Private(s, Entry(t, None), e.w)
    ensures Runnable(Schedulers.After(s, e), t)
  {
    hide Inv, Schedulers.Possible, Schedulers.After, Private, EndsOwn, Resting;
    var u := Schedulers.After(s, e);
    FibersStay(s, e);
    StepCrew(s, e);
    forall v | 0 <= v < |s.workers| && s.workers[v].phase.Left?
      ensures u.workers[v].phase.Left?
    {
      StaysAway(s, e, v);
    }
    forall w | 0 <= w < |u.workers| && t.OfFiber? && Resting(u, w, t.f)
      ensures Private(u, Entry(t, None), w)
    {
      if !Resting(s, w, t.f) {
        if EndsOwn(s, e, t.f) {
          OwnerEnds(s, e, w, t.f);
        } else {
          NoNewRest(s, e, w, t.f);
        }
      }
      PrivateStays(s, u, Entry(t, None), w);
    }
  }

  lemma StaysAway(s: Sys, e: Event, v: nat)
    requires Schedulers.Possible(s, e) && At(s, v, Left)
    ensures At(Schedulers.After(s, e), v, Left)
  {
    hide First, Queued, Stopping, Schedulers.Settled, Callbacks, MayReset, Dead;
  }

  /** A fiber that ends as a callback's own comes to rest with the worker that ran it. */
  lemma OwnerEnds(s: Sys, e: Event, w: nat, f: nat)
    requires Inv(s) && Schedulers.Possible(s, e) && EndsOwn(s, e, f) && Resting(Schedulers.After(s, e), w, f)
    ensures w == e.w
  {
    hide Counted, Conserved, FibersOk, QueueOk, Queued;
    if w != e.w {
      NotShared(s, e.w, w, f);
    }
  }

  lemma FibersStay(s: Sys, e: Event)
    requires Schedulers.Possible(s, e)
    ensures |s.fibers| <= |Schedulers.After(s, e).fibers|
  {
    hide First, Queued, Stopping;
  }

  /** Only a callback's own fiber that ends comes to rest. */
  lemma NoNewRest(s: Sys, e: Event, w: nat, f: nat)
    requires Schedulers.Possible(s, e) && f < |s.fibers| && !EndsOwn(s, e, f)
    requires w < |s.workers| && !Resting(s, w, f)
    ensures !Resting(Schedulers.After(s, e), w, f)
  {
    hide First, Queued, Stopping, Taken, Returned, Resting, EndsOwn;
    match e
    case Take(v) => TakeNoRest(s, v, First(s.queue, s.fibers, v, 0), w, f);
    case Return(v, how) => ReturnNoRest(s, v, how, w, f);
    case Submit(task, thread, _) => assert !Resting(Submitted(s, task, thread), w, f) by { MoveNoRest(s, Submitted(s, task, thread), w, f); }
    case _ => MoveNoRest(s, Schedulers.After(s, e), w, f);
  }

  lemma MoveNoRest(s: Sys, t: Sys, w: nat, f: nat)
    requires |t.workers| == |s.workers| && w < |s.workers| && t.workers[w].own in {s.workers[w].own, None}
    requires f < |s.fibers| <= |t.fibers| && t.fibers[f] == s.fibers[f] && !Resting(s, w, f)
    ensures !Resting(t, w, f)
  {
  }

  lemma TakeNoRest(s: Sys, v: nat, i: nat, w: nat, f: nat)
    requires v < |s.workers| && i < |s.queue| && f < |s.fibers| && w < |s.workers| && !Resting(s, w, f)
    ensures |s.fibers| <= |Taken(s, v, i).fibers| && !Resting(Taken(s, v, i), w, f)
  {
  }

  lemma ReturnNoRest(s: Sys, v: nat, how: How, w: nat, f: nat)
    requires Runs(s, v) && f < |s.fibers| && w < |s.workers| && !Resting(s, w, f) && !EndsOwn(s, Return(v, how), f)
    ensures |s.fibers| == |Returned(s, v, how).fibers| && !Resting(Returned(s, v, how), w, f)
  {
  }

  /** Every step of the whole keeps all parts sound. */
  lemma ActKeeps(j: Server, a: Act)
    requires Sound(j) && Possible(j, a) && Fair(j, a)
    ensures Sound(After(j, a))
  {
    hide Inv, IoInv, WaitsFor, Moved, IoRuns.After, IoRuns.Fit, TimerRuns.StepBook, Timers.Due;
    var u := After(j, a);
    match a
    case Step(e) =>
      StepKeeps(j.tasks, e);
      forall t | WaitsFor(j.io, t)
        ensures Runnable(u.tasks, t)
      {
        StaysRunnable(j.tasks, e, t);
      }
    case Join(w) => MoveSound(j, w, if j.io.pending == 0 && Stopping(j.tasks) then Left else Head, 0, j.tasks.workers[w].idleDone);
    case Check(w) => MoveSound(j, w, Head, -1, AllQuiet(j));
    case Use(call, fails, who) => UseKeeps(j, call, fails, who);
    case Clock(time, fired, who) => ClockKeeps(j, time, fired, who);
  }

  lemma ClockKeeps(j: Server, time: TimerRuns.Call, fired: seq<Timers.Id>, who: Option<nat>)
    requires Sound(j) && Possible(j, Clock(time, fired, who))
    ensures Sound(After(j, Clock(time, fired, who)))
  {
    hide Inv, IoInv, WaitsFor, TimerRuns.StepBook, Runnable;
    FiredIsRunnable(j, fired);
    HandedKeeps(j.tasks, Fired(j.book, fired));
    StillSound(j, After(j, Clock(time, fired, who)));
  }

  lemma MoveSound(j: Server, w: nat, phase: Phase, idle: int, done: bool)
    requires Sound(j) && w < |j.tasks.workers| && !j.tasks.workers[w].phase.Running? && !phase.Running?
    requires !j.tasks.workers[w].phase.Left?
    requires idle == (if phase.Idle? then 1 else 0) - (if j.tasks.workers[w].phase.Idle? then 1 else 0)
    ensures Sound(j.(tasks := Moved(j.tasks, w, phase, idle, done)))
  {
    hide Inv, IoInv, WaitsFor, Runnable;
    MoveKeeps(j.tasks, w, phase, idle, done);
    StillSound(j, j.(tasks := Moved(j.tasks, w, phase, idle, done)));
  }

  lemma {:induction false} FiredIsRunnable(j: Server, fired: seq<Timers.Id>)
    requires AllLive(j.book, fired)
    ensures forall i :: 0 <= i < |Fired(j.book, fired)| ==> Runnable(j.tasks, Fired(j.book, fired)[i])
  {
    if fired != [] {
      FiredIsRunnable(j, fired[1..]);
    }
  }

  lemma UseKeeps(j: Server, call: IoRuns.Call, fails: bool, who: Option<nat>)
    requires Sound(j) && Possible(j, Use(call, fails, who))
    ensures Sound(After(j, Use(call, fails, who)))
  {
    hide Inv, IoInv, WaitsFor, IoRuns.After, IoRuns.Fit, Runnable;
    UseHands(j.io, call, fails);
    var io := IoRuns.After(j.io, call, fails);
    var ts := io.handed[|j.io.handed|..];
    assert forall i :: 0 <= i < |ts| ==> ts[i] == io.handed[|j.io.handed| + i];
    HandedKeeps(j.tasks, ts);
    if call.Add? && call.cb.None? {
      RunningIsRunnable(j.tasks, who.value);
    }
    assert forall c :: Runnable(j.tasks, OfCallback(c)) by { CallbacksAreRunnable(j.tasks); }
    StillSound(j, After(j, Use(call, fails, who)));
  }

  lemma CallbacksAreRunnable(s: Sys)
    ensures forall c :: Runnable(s, OfCallback(c))
  {
  }

  lemma RunningIsRunnable(s: Sys, w: nat)
    requires Inv(s) && Runs(s, w)
    ensures Runnable(s, OfFiber(s.workers[w].phase.f))
  {
    hide Counted, Conserved, AllApart, FibersOk;
    assert WorkerOk(s, s.workers[w]);
  }

  // ----- what acts do --------------------------------------------------------------------------------

  function Entries(ts: seq<Task>): (xs: seq<Entry>)
    ensures |xs| == |ts| && forall i :: 0 <= i < |ts| ==> xs[i].task == ts[i] && xs[i].thread == None
  {
    if ts == [] then [] else [Entry(ts[0], None)] + Entries(ts[1..])
  }

  lemma {:induction false} HandedQueued(s: Sys, ts: seq<Task>)
    ensures Handed(s, ts).queue == s.queue + Entries(ts)
    decreases |ts|
  {
    if ts != [] {
      HandedQueued(Submitted(s, Some(ts[0]), None), ts[1..]);
      assert s.queue + ([Entry(ts[0], None)] + Entries(ts[1..])) == (s.queue + [Entry(ts[0], None)]) + Entries(ts[1..]);
    }
  }

  /** The tasks of an expiry, one by one: the callbacks of the timers that have one. */
  lemma {:induction false} FiredInTurn(book: Timers.Book, fired: seq<Timers.Id>, id: Timers.Id)
    requires AllLive(book, [id] + fired)
    ensures AllLive(book, fired)
    ensures Fired(book, [id] + fired) ==
      match book.timers[id].cb.value
      case Empty => Fired(book, fired)
      case Function(code) => [OfCallback(code)] + Fired(book, fired)
  {
    assert ([id] + fired)[1..] == fired;
  }

  /** What a use of the manager hands over, and the callbacks of expired timers, go to the end
      of the queue, in order, for any thread. */
  lemma ActQueues(j: Server, a: Act)
    requires Sound(j) && Possible(j, a)
    ensures a.Use? ==>
      var u := After(j, a);
      && |j.io.handed| <= |u.io.handed|
      && u.tasks.queue == j.tasks.queue + Entries(u.io.handed[|j.io.handed|..])
    ensures a.Clock? ==> After(j, a).tasks.queue == j.tasks.queue + Entries(Fired(j.book, a.fired))
  {
    hide Inv, IoInv, IoRuns.After, IoRuns.Fit, TimerRuns.StepBook, WaitsFor;
    match a
    case Use(call, fails, _) =>
      UseHands(j.io, call, fails);
      HandedQueued(j.tasks, IoRuns.After(j.io, call, fails).handed[|j.io.handed|..]);
    case Clock(_, fired, _) => HandedQueued(j.tasks, Fired(j.book, fired));
    case _ =>
  }

  /** The idle fiber ends if and only if stop was asked for and there is no timer in the set,
      no waiter, and no queued or running task. */
  lemma IdleFiberEndsExactly(j: Server, w: nat)
    requires Sound(j) && Possible(j, Act.Check(w))
    ensures var u := After(j, Act.Check(w));
      && At(u.tasks, w, Head) && u.io == j.io && u.book == j.book
      && (u.tasks.workers[w].idleDone <==>
            && j.tasks.autoStop && j.tasks.stopping
            && Timers.Idle(j.book.timers) && IoRuns.NobodyWaits(j.io)
            && j.tasks.queue == [] && forall v :: 0 <= v < |j.tasks.workers| ==> !j.tasks.workers[v].phase.Running?)
  {
    hide Inv, IoInv, Timers.Idle, WaitsFor;
    IoRuns.PendingIsExact(j.io);
    IoRuns.ActiveIsExact(j.tasks);
  }

  // ----- shutdown of the whole ---------------------------------------------------------------------

  /** After `stop` nothing comes from outside. */
  predicate Calm(j: Server, a: Act)
  {
    j.tasks.stopping ==>
      match a
      case Step(e) => SchedulerRuns.Calm(j.tasks, e)
      case Use(_, _, who) => who.Some?
      case Clock(_, _, who) => who.Some?
      case _ => true
  }

  /** No waiter, no queued or running task, and a stop was requested. */
  predicate HalfQuiet(j: Server)
  {
    j.io.pending == 0 && Stopping(j.tasks)
  }

  /** An expiry takes a timer with something to call. */
  predicate Fires(j: Server, a: Act)
  {
    a.Clock? && exists i :: 0 <= i < |a.fired| && Calls(j.book, a.fired[i])
  }

  predicate Calls(book: Timers.Book, id: Timers.Id) { id in book.timers && Timers.Callable(book.timers[id]) }

  lemma {:induction false} FiredTasks(book: Timers.Book, fired: seq<Timers.Id>)
    requires AllLive(book, fired)
    ensures Fired(book, fired) == [] <==> forall i :: 0 <= i < |fired| ==> !Calls(book, fired[i])
  {
    if fired != [] {
      FiredTasks(book, fired[1..]);
      assert forall i :: 0 <= i < |fired[1..]| ==> fired[1..][i] == fired[i + 1];
      assert forall i :: 1 <= i < |fired| ==> fired[i] == fired[1..][i - 1];
    }
  }

  /** That state ends exactly when an idle worker fires a timer. */
  lemma HalfQuietStays(j: Server, a: Act)
    requires Sound(j) && Possible(j, a) && Calm(j, a) && HalfQuiet(j)
    ensures HalfQuiet(After(j, a)) <==> !Fires(j, a)
  {
    hide Inv, IoInv, IoRuns.After, Schedulers.After, Schedulers.Possible, SchedulerRuns.Calm, TimerRuns.StepBook;
    SchedulerRuns.StoppingMeansQuiet(j.tasks);
    match a
    case Step(e) => SchedulerRuns.StoppingStays(j.tasks, e);
    case Use(call, fails, who) =>
      DispatchNothing(j.io, call.fd, call.report, fails);
    case Clock(time, fired, who) =>
      FiredTasks(j.book, fired);
      HandedQueue(j.tasks, Fired(j.book, fired));
    case _ =>
  }

  lemma {:induction false} HandedQueue(s: Sys, ts: seq<Task>)
    ensures |Handed(s, ts).queue| == |s.queue| + |ts|
    decreases |ts|
  {
    if ts != [] {
      HandedQueue(Submitted(s, Some(ts[0]), None), ts[1..]);
    }
  }

  /** Once all is quiet, it stays quiet. */
  lemma QuietStays(j: Server, a: Act)
    requires Sound(j) && Possible(j, a) && Calm(j, a) && AllQuiet(j)
    ensures AllQuiet(After(j, a))
  {
    hide Inv, IoInv, IoRuns.After, Schedulers.After, Schedulers.Possible, SchedulerRuns.Calm;
    SchedulerRuns.StoppingMeansQuiet(j.tasks);
    if a.Clock? {
      FirstIsMember(a.fired);
    }
    HalfQuietStays(j, a);
  }

  lemma FirstIsMember(fired: seq<Timers.Id>)
    ensures fired == [] || fired[0] in fired
  {
  }

  lemma DispatchNothing(io: Io, fd: nat, report: set<Flag>, fails: bool)
    requires IoInv(io) && io.pending == 0 && fd < |io.contexts|
    ensures IoRuns.Fit(io, IoRuns.Dispatch(fd, report)) && IoRuns.After(io, IoRuns.Dispatch(fd, report), fails) == io
  {
    hide Bits, KernelOk, Accounted;
    IoRuns.NoBits(io.contexts);
  }

  /** The caller's thread, joining in `stop`, leaves at once exactly when nobody waits and the
      scheduler is done; everything is then quiet exactly when no timer is live either. */
  lemma JoinLeaves(j: Server, w: nat)
    requires Possible(j, Join(w))
    ensures At(After(j, Join(w)).tasks, w, Left) <==> HalfQuiet(j)
    ensures HalfQuiet(j) ==> (AllQuiet(After(j, Join(w))) <==> Timers.Idle(j.book.timers))
  {
    hide Timers.Idle;
  }

  /** The idle fiber of some worker has ended. */
  predicate SomeEnded(j: Server)
  {
    exists w :: 0 <= w < |j.tasks.workers| && j.tasks.workers[w].idleDone
  }

  predicate SomeLeft(j: Server)
  {
    exists w :: 0 <= w < |j.tasks.workers| && j.tasks.workers[w].phase.Left?
  }

  predicate AllLeft(j: Server)
  {
    |j.tasks.workers| > 0 && forall w :: 0 <= w < |j.tasks.workers| ==> j.tasks.workers[w].phase.Left?
  }

  lemma EndedMeansQuiet(j: Server, a: Act)
    requires Sound(j) && Possible(j, a) && Fair(j, a) && Calm(j, a) && (SomeEnded(j) ==> AllQuiet(j))
    ensures SomeEnded(After(j, a)) ==> AllQuiet(After(j, a))
  {
    hide Inv, IoInv, IoRuns.After, IoRuns.Fit, TimerRuns.StepBook, Timers.Idle, Calm, WaitsFor, Fired;
    if AllQuiet(j) {
      QuietStays(j, a);
    } else {
      assert !SomeEnded(j);
      NobodyEnds(j, a);
    }
  }

  /** What one worker's phase can become. */
  predicate Moves(x: Worker, y: Worker, ended: bool, left: bool)
  {
    (y.idleDone ==> x.idleDone || ended) && (y.phase.Left? ==> x.phase.Left? || x.idleDone || left)
  }

  lemma StepMoves(s: Sys, e: Event, w: nat)
    requires Schedulers.Possible(s, e) && !e.Begin? && !e.Check? && w < |s.workers|
    ensures |Schedulers.After(s, e).workers| == |s.workers|
    ensures Moves(s.workers[w], Schedulers.After(s, e).workers[w], false, false)
  {
    hide First, Queued, Stopping, Taken, Returned;
    match e
    case Take(v) => TakeMoves(s, v, First(s.queue, s.fibers, v, 0), w);
    case Return(v, how) => ReturnMoves(s, v, how, w);
    case _ =>
  }

  lemma TakeMoves(s: Sys, v: nat, i: nat, w: nat)
    requires At(s, v, Head) && i < |s.queue| && w < |s.workers|
    ensures |Taken(s, v, i).workers| == |s.workers| && Moves(s.workers[w], Taken(s, v, i).workers[w], false, false)
  {
    hide Without, MayReset, Dead;
  }

  lemma ReturnMoves(s: Sys, v: nat, how: How, w: nat)
    requires Runs(s, v) && w < |s.workers|
    ensures |Returned(s, v, how).workers| == |s.workers|
    ensures Moves(s.workers[w], Returned(s, v, how).workers[w], false, false)
  {
    hide Schedulers.Settled, Callbacks;
  }

  /** In any step a worker's idle fiber ends only by its own check, and a worker leaves only
      when its idle fiber has ended, or by joining. */
  lemma CrewMoves(j: Server, a: Act, w: nat)
    requires Sound(j) && Possible(j, a) && w < |j.tasks.workers|
    ensures |After(j, a).tasks.workers| == |j.tasks.workers|
    ensures Moves(j.tasks.workers[w], After(j, a).tasks.workers[w],
                  a == Act.Check(w) && AllQuiet(j), a == Join(w) && HalfQuiet(j))
  {
    hide Inv, IoInv, IoRuns.After, IoRuns.Fit, TimerRuns.StepBook, AllQuiet, WaitsFor, Stopping, Schedulers.After, Schedulers.Possible;
    match a
    case Step(e) => StepMoves(j.tasks, e, w);
    case Use(call, fails, _) =>
      UseHands(j.io, call, fails);
      HandedWorkers(j.tasks, IoRuns.After(j.io, call, fails).handed[|j.io.handed|..]);
    case Clock(_, fired, _) => HandedWorkers(j.tasks, Fired(j.book, fired));
    case _ =>
  }

  lemma NobodyEnds(j: Server, a: Act)
    requires Sound(j) && Possible(j, a) && !SomeEnded(j) && !AllQuiet(j)
    ensures !SomeEnded(After(j, a))
  {
    hide Sound, Possible, After, AllQuiet;
    SameCrew(j, a);
    forall w | 0 <= w < |j.tasks.workers|
      ensures !After(j, a).tasks.workers[w].idleDone
    {
      CrewMoves(j, a, w);
    }
  }

  lemma {:induction false} HandedWorkers(s: Sys, ts: seq<Task>)
    ensures Handed(s, ts).workers == s.workers
    decreases |ts|
  {
    if ts != [] {
      HandedWorkers(Submitted(s, Some(ts[0]), None), ts[1..]);
    }
  }

  /** While no timer fires after the first worker left, nothing but timers is left. */
  lemma SomeLeftStep(j: Server, a: Act)
    requires Sound(j) && Possible(j, a) && Fair(j, a) && Calm(j, a) && (SomeEnded(j) ==> AllQuiet(j))
    requires SomeLeft(j) ==> HalfQuiet(j) && !Fires(j, a)
    ensures SomeLeft(After(j, a)) ==> HalfQuiet(After(j, a))
  {
    hide Inv, IoInv, Possible, Fair, Calm, After, HalfQuiet, AllQuiet, Fires;
    var u := After(j, a);
    if SomeLeft(u) {
      var w :| 0 <= w < |u.tasks.workers| && u.tasks.workers[w].phase.Left?;
      LeaverIsQuiet(j, a, w);
      HalfQuietStays(j, a);
    }
  }

  /** Once all workers have left, nothing but timers is left. */
  lemma AllLeftStep(j: Server, a: Act)
    requires Sound(j) && Possible(j, a) && Fair(j, a) && Calm(j, a) && (SomeEnded(j) ==> AllQuiet(j))
    requires AllLeft(j) ==> HalfQuiet(j)
    ensures AllLeft(After(j, a)) ==> HalfQuiet(After(j, a))
  {
    hide Inv, IoInv, Possible, Fair, Calm, After, HalfQuiet, AllQuiet, Fires;
    var u := After(j, a);
    if AllLeft(u) {
      SameCrew(j, a);
      if AllLeft(j) {
        NobodyFires(j, a);
      } else {
        var w :| 0 <= w < |j.tasks.workers| && !j.tasks.workers[w].phase.Left?;
        LeaverIsQuiet(j, a, w);
      }
      HalfQuietStays(j, a);
    }
  }

  lemma NobodyFires(j: Server, a: Act)
    requires Possible(j, a) && AllLeft(j)
    ensures !Fires(j, a)
  {
  }

  lemma LeaverIsQuiet(j: Server, a: Act, w: nat)
    requires Sound(j) && Possible(j, a) && (SomeEnded(j) ==> AllQuiet(j)) && At(After(j, a).tasks, w, Left)
    ensures At(j.tasks, w, Left) || (HalfQuiet(j) && !Fires(j, a))
  {
    hide Inv, IoInv, Possible, After;
    SameCrew(j, a);
    CrewMoves(j, a, w);
    if !At(j.tasks, w, Left) && j.tasks.workers[w].idleDone {
      assert AllQuiet(j);
      QuietFiresNothing(j, a);
    }
  }

  lemma QuietFiresNothing(j: Server, a: Act)
    requires Possible(j, a) && AllQuiet(j)
    ensures !Fires(j, a)
  {
    if a.Clock? {
      FirstIsMember(a.fired);
    }
  }

  lemma SameCrew(j: Server, a: Act)
    requires Sound(j) && Possible(j, a)
    ensures |After(j, a).tasks.workers| == |j.tasks.workers|
  {
    hide Inv, IoInv, IoRuns.After, IoRuns.Fit, TimerRuns.StepBook, AllQuiet, Stopping, Schedulers.After, Schedulers.Possible;
    match a
    case Step(e) => StepCrew(j.tasks, e);
    case Use(call, fails, _) =>
      UseHands(j.io, call, fails);
      HandedWorkers(j.tasks, IoRuns.After(j.io, call, fails).handed[|j.io.handed|..]);
    case Clock(_, fired, _) => HandedWorkers(j.tasks, Fired(j.book, fired));
    case _ =>
  }

  lemma StepCrew(s: Sys, e: Event)
    requires Schedulers.Possible(s, e)
    ensures |Schedulers.After(s, e).workers| == |s.workers|
  {
    hide First, Queued, Stopping, Schedulers.Settled, Callbacks, MayReset, Dead;
  }

  ghost predicate Legal(j: Server, acts: seq<Act>)
    decreases |acts|
  {
    acts == [] ||
    (Possible(j, acts[0]) && Fair(j, acts[0]) && Calm(j, acts[0]) && Legal(After(j, acts[0]), acts[1..]))
  }

  ghost function AfterAll(j: Server, acts: seq<Act>): Server
    requires Legal(j, acts)
    decreases |acts|
  {
    if acts == [] then j else AfterAll(After(j, acts[0]), acts[1..])
  }

  /** Some timer fires after some worker has left. */
  ghost predicate FiresLate(j: Server, acts: seq<Act>)
    requires Legal(j, acts)
    decreases |acts|
  {
    acts != [] && ((SomeLeft(j) && Fires(j, acts[0])) || FiresLate(After(j, acts[0]), acts[1..]))
  }

  lemma {:induction false} RunsStayQuiet(j: Server, acts: seq<Act>)
    requires Legal(j, acts) && Sound(j) && (SomeEnded(j) ==> AllQuiet(j)) && (AllLeft(j) ==> HalfQuiet(j))
    ensures var u := AfterAll(j, acts);
            && Sound(u) && (SomeEnded(u) ==> AllQuiet(u)) && (AllLeft(u) ==> HalfQuiet(u))
            && ((SomeLeft(j) ==> HalfQuiet(j)) && !FiresLate(j, acts) ==> (SomeLeft(u) ==> HalfQuiet(u)))
    decreases |acts|
  {
    hide Possible, Fair, Calm, After, SomeEnded, SomeLeft, AllLeft, Sound, AllQuiet, HalfQuiet, Fires;
    if acts != [] {
      ActKeeps(j, acts[0]);
      EndedMeansQuiet(j, acts[0]);
      AllLeftStep(j, acts[0]);
      if (SomeLeft(j) ==> HalfQuiet(j)) && !FiresLate(j, acts) {
        SomeLeftStep(j, acts[0]);
      }
      RunsStayQuiet(After(j, acts[0]), acts[1..]);
    }
  }

  /** A started server: no waiter, and whatever timers. */
  function Fresh(n: nat, caller: bool, io: Io, book: Timers.Book): Server
  {
    Server(SchedulerRuns.Initial(n, caller), io, book)
  }

  /** Nobody waits, the kernel watches nothing, nothing is queued or runs, and every callback
      handed to the scheduler is finished or with a fiber that waits for no event. */
  ghost predicate Drained(j: Server)
  {
    && IoRuns.NobodyWaits(j.io) && j.io.kernel == map[]
    && j.tasks.queue == [] && (forall w :: 0 <= w < |j.tasks.workers| ==> !j.tasks.workers[w].phase.Running?)
    && forall c :: Schedulers.Live(j.tasks.fibers, c) + j.tasks.finished[c] == j.tasks.issued[c]
  }

  lemma HalfQuietIsDrained(j: Server)
    requires Sound(j) && HalfQuiet(j)
    ensures Drained(j)
  {
    hide Inv, IoInv, Schedulers.Live;
    IoRuns.PendingIsExact(j.io);
    SchedulerRuns.StoppingMeansQuiet(j.tasks);
    SchedulerRuns.NothingPending(j.tasks);
  }

  lemma FreshIsSound(n: nat, caller: bool, io: Io, book: Timers.Book)
    requires IoInv(io) && IoRuns.NobodyWaits(io)
    ensures var j := Fresh(n, caller, io, book); Sound(j) && !SomeEnded(j) && !SomeLeft(j) && !AllLeft(j)
  {
    hide IoInv, Inv, Waiter;
    SchedulerRuns.InitialInv(n, caller);
    var ws := Fresh(n, caller, io, book).tasks.workers;
    assert |ws| > 0 ==> !ws[0].phase.Left?;
  }

  /** In every run of a started server: from the first idle fiber that ended on, no timer is
      live and all is drained. From the first worker that left by joining on, all is drained
      until a timer fires, and when all workers have left all is drained; then everything is
      quiet exactly when no timer is live. */
  lemma StopsClean(n: nat, caller: bool, io: Io, book: Timers.Book, acts: seq<Act>)
    requires IoInv(io) && IoRuns.NobodyWaits(io) && Legal(Fresh(n, caller, io, book), acts)
    ensures var u := AfterAll(Fresh(n, caller, io, book), acts);
            && Sound(u)
            && (SomeEnded(u) ==> Timers.Idle(u.book.timers) && Drained(u))
            && (SomeLeft(u) && !FiresLate(Fresh(n, caller, io, book), acts) ==> Drained(u))
            && (AllLeft(u) ==> Drained(u) && (AllQuiet(u) <==> Timers.Idle(u.book.timers)))
  {
    hide Legal, AfterAll, FiresLate, SomeEnded, SomeLeft, AllLeft, IoInv, Inv, Drained, IoRuns.NobodyWaits, WaitsFor, Timers.Idle;
    var j := Fresh(n, caller, io, book);
    FreshIsSound(n, caller, io, book);
    RunsStayQuiet(j, acts);
    var u := AfterAll(j, acts);
    if HalfQuiet(u) {
      HalfQuietIsDrained(u);
    }
  }

  /** A caller's thread that joins can leave with a live timer; with no other worker nobody is
      left to fire it. */
  lemma JoinLeavesTimer(n: nat, io: Io, book: Timers.Book, id: Timers.Id, ms: nat, cb: Timers.Callback, now: nat) returns (acts: seq<Act>)
    requires IoInv(io) && IoRuns.NobodyWaits(io) && id !in book.timers
    ensures Legal(Fresh(n, true, io, book), acts)
    ensures var u := AfterAll(Fresh(n, true, io, book), acts);
            && At(u.tasks, n, Left) && Timers.Live(u.book.timers, id) && HalfQuiet(u) && !AllQuiet(u)
            && (n == 0 ==> AllLeft(u))
  {
    hide IoInv, Timers.Front;
    var j := Fresh(n, true, io, book);
    IoRuns.PendingIsExact(io);
    var a1, a2, a3 := Clock(TimerRuns.Call(TimerRuns.Add(id, ms, cb, false), now), [], None), Step(Stop), Join(n);
    var j1 := After(j, a1);
    var j2 := After(j1, a2);
    var j3 := After(j2, a3);
    assert j1.tasks == j.tasks && Timers.Live(j1.book.timers, id);
    acts := [a1] + ([a2] + ([a3] + []));
    assert Legal(j3, []) && AfterAll(j3, []) == j3;
    RunOn(j2, a3, []);
    RunOn(j1, a2, [a3] + []);
    RunOn(j, a1, [a2] + ([a3] + []));
  }

  lemma RunOn(j: Server, a: Act, acts: seq<Act>)
    requires Possible(j, a) && Fair(j, a) && Calm(j, a) && Legal(After(j, a), acts)
    ensures Legal(j, [a] + acts) && AfterAll(j, [a] + acts) == AfterAll(After(j, a), acts)
  {
    hide Possible, Fair, Calm, After;
    assert ([a] + acts)[0] == a && ([a] + acts)[1..] == acts;
  }
}
