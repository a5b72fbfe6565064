/**
 The fiber scheduler: one task queue shared by workers that take fibers and
 callbacks, run them until they yield, park or end, and leave once the
 scheduler is stopping and nothing is left to do. Each critical section is one
 step; a step that would break one of the code's assertions sets `aborted`.
*/
module Schedulers {
  import opened Wrappers

  type Callback = nat

  datatype State = INIT | HOLD | EXEC | TERM | READY | EXECEP

  datatype Fiber = Fiber(state: State, cb: Option<Callback>)

  datatype Task = OfFiber(f: nat) | OfCallback(c: Callback)

  /** FiberAndThread: no thread stands for any thread. */
  datatype Entry = Entry(task: Task, thread: Option<nat>)

  /** Where a worker is in `run`. A fiber runs either for a queued fiber or as the
      worker's own callback fiber. */
  datatype Phase = Waiting | Head | Idle | Running(f: nat, own: bool) | Left

  /** `own` is cb_fiber; `idleDone` says that the idle fiber has terminated. */
  datatype Worker = Worker(phase: Phase, own: Option<nat>, idleDone: bool)

  /** How a fiber hands control back. */
  datatype How = Yields | Parks | Ends | Throws

  datatype Sys = Sys(
    queue: seq<Entry>, fibers: seq<Fiber>, workers: seq<Worker>,
    active: int, idle: int, autoStop: bool, stopping: bool, aborted: bool,
    issued: multiset<Callback>, finished: multiset<Callback>)

  predicate Dead(x: Fiber) { x.state == TERM || x.state == EXECEP }

  /** The entries a scan by worker `w` does not step over. */
  predicate Eligible(queue: seq<Entry>, fibers: seq<Fiber>, w: nat, i: nat)
    requires i < |queue|
  {
    var x := queue[i];
    && (x.thread == None || x.thread == Some(w))
    && !(x.task.OfFiber? && x.task.f < |fibers| && fibers[x.task.f].state == EXEC)
  }

  /** The earliest eligible entry from `i` on, or the length of the queue. */
  function First(queue: seq<Entry>, fibers: seq<Fiber>, w: nat, i: nat): (k: nat)
    requires i <= |queue|
    ensures i <= k <= |queue|
    ensures k < |queue| ==> Eligible(queue, fibers, w, k)
    ensures forall j :: i <= j < k ==> !Eligible(queue, fibers, w, j)
    decreases |queue| - i
  {
    if i == |queue| || Eligible(queue, fibers, w, i) then i else First(queue, fibers, w, i + 1)
  }

  // ----- the steps ------------------------------------------------------------------------

  /** scheduleNoLock; a null task is not queued. */
  function Submitted(s: Sys, task: Option<Task>, thread: Option<nat>): Sys
  {
    if task.None? then s
    else s.(queue := s.queue + [Entry(task.value, thread)],
            issued := s.issued + (if task.value.OfCallback? then multiset{task.value.c} else multiset{}))
  }

  /** A fiber made by a client for a callback of its own. */
  function Created(s: Sys, c: Callback): Sys
  {
    s.(fibers := s.fibers + [Fiber(INIT, Some(c))], issued := s.issued + multiset{c})
  }

  function Without<T>(q: seq<T>, i: nat): seq<T>
    requires i < |q|
  {
    q[..i] + q[i + 1..]
  }

  predicate MayReset(x: Fiber) { x.state == TERM || x.state == INIT || x.state == EXECEP }

  /** Taking entry `i` and switching to it. */
  function Taken(s: Sys, w: nat, i: nat): Sys
    requires w < |s.workers| && i < |s.queue|
  {
    var rest := s.(queue := Without(s.queue, i));
    match s.queue[i].task
    case OfFiber(f) =>
      if f >= |s.fibers| || s.fibers[f].state == EXEC then rest.(aborted := true)
      else if Dead(s.fibers[f]) then rest
      else
        rest.(fibers := s.fibers[f := s.fibers[f].(state := EXEC)], active := s.active + 1,
              workers := s.workers[w := s.workers[w].(phase := Running(f, false))])
    case OfCallback(c) =>
      var own := s.workers[w].own;
      if own.None? then
        rest.(fibers := s.fibers + [Fiber(EXEC, Some(c))], active := s.active + 1,
              workers := s.workers[w := s.workers[w].(phase := Running(|s.fibers|, true), own := Some(|s.fibers|))])
      else if own.value >= |s.fibers| || !MayReset(s.fibers[own.value]) then rest.(aborted := true)
      else
        rest.(fibers := s.fibers[own.value := Fiber(EXEC, Some(c))], active := s.active + 1,
              workers := s.workers[w := s.workers[w].(phase := Running(own.value, true))])
  }

  /** The fiber after control came back and the worker fixed its state up; an ended
      callback fiber is reset for the next callback. */
  function Settled(x: Fiber, own: bool, how: How): Fiber
  {
    match how
    case Yields => x.(state := READY)
    case Parks => x.(state := HOLD)
    case Ends => if own then Fiber(INIT, None) else Fiber(TERM, None)
    case Throws => if own then Fiber(INIT, None) else x.(state := EXECEP)
  }

  function Callbacks(x: Option<Callback>): multiset<Callback>
  {
    if x.Some? then multiset{x.value} else multiset{}
  }

  predicate Runs(s: Sys, w: nat) { w < |s.workers| && s.workers[w].phase.Running? && s.workers[w].phase.f < |s.fibers| }

  /** Switching back out of the fiber that worker `w` runs. */
  function Returned(s: Sys, w: nat, how: How): Sys
    requires Runs(s, w)
  {
    var me := s.workers[w];
    var f, own := me.phase.f, me.phase.own;
    var keeps := !own || how.Ends? || how.Throws?;
    s.(fibers := s.fibers[f := Settled(s.fibers[f], own, how)],
       queue := if how.Yields? then s.queue + [Entry(OfFiber(f), None)] else s.queue,
       workers := s.workers[w := me.(phase := Head, own := if keeps then me.own else None)],
       active := s.active - 1,
       finished := if how.Ends? || how.Throws? then s.finished + Callbacks(s.fibers[f].cb) else s.finished)
  }

  /** Scheduler::stopping. */
  predicate Stopping(s: Sys) { s.autoStop && s.stopping && s.queue == [] && s.active == 0 }

  /** A worker that leaves drops its callback fiber. */
  function Moved(s: Sys, w: nat, phase: Phase, idle: int, done: bool): Sys
    requires w < |s.workers|
  {
    var own := if phase.Left? then None else s.workers[w].own;
    s.(workers := s.workers[w := s.workers[w].(phase := phase, own := own, idleDone := done)], idle := s.idle + idle)
  }

  datatype Event =
    | Submit(task: Option<Task>, thread: Option<nat>, from: Option<nat>)
    | Create(c: Callback)
    | Begin(w: nat)
    | Take(w: nat)
    | Return(w: nat, how: How)
    | Rest(w: nat)
    | Check(w: nat)
    | Leave(w: nat)
    | Stop

  predicate At(s: Sys, w: nat, phase: Phase) { w < |s.workers| && s.workers[w].phase == phase }

  predicate Finds(s: Sys, w: nat) { First(s.queue, s.fibers, w, 0) < |s.queue| }

  predicate Queued(s: Sys, f: nat)
  {
    exists i :: 0 <= i < |s.queue| && s.queue[i].task == OfFiber(f)
  }

  /** What the code itself makes possible: a task may be submitted by a worker's running
      fiber or from outside, a caller's thread joins in `stop`, and a fiber without a
      callback can only throw. */
  predicate Possible(s: Sys, e: Event)
  {
    match e
    case Submit(task, _, from) =>
      && (task.Some? && task.value.OfFiber? ==> task.value.f < |s.fibers|)
      && (from.Some? ==> Runs(s, from.value))
    case Create(_) => true
    case Begin(w) => At(s, w, Waiting) && s.autoStop && s.stopping
    case Take(w) => At(s, w, Head) && Finds(s, w)
    case Return(w, how) => Runs(s, w) && (s.fibers[s.workers[w].phase.f].cb.None? ==> how.Throws?)
    case Rest(w) => At(s, w, Head) && !Finds(s, w) && !s.workers[w].idleDone
    case Check(w) => At(s, w, Idle)
    case Leave(w) => At(s, w, Head) && !Finds(s, w) && s.workers[w].idleDone
    case Stop => true
  }

  /** Worker `v` may still come to take the entry. */
  predicate Reaches(s: Sys, x: Entry, v: nat)
  {
    v < |s.workers| && !s.workers[v].phase.Left? && (x.thread == None || x.thread == Some(v))
  }

  /** No worker but `w` may. */
  predicate Private(s: Sys, x: Entry, w: nat)
  {
    forall v :: 0 <= v < |s.workers| && v != w ==> !Reaches(s, x, v)
  }

  /** `f` is the callback fiber of worker `w`, reset for the next callback. */
  predicate Resting(s: Sys, w: nat, f: nat)
  {
    w < |s.workers| && s.workers[w].own == Some(f) && f < |s.fibers| && s.fibers[f].state == INIT
  }

  /** What the clients owe: a callback fiber that rests, or comes to rest, is not left in
      the queue for another worker. */
  predicate Fair(s: Sys, e: Event)
  {
    match e
    case Submit(task, thread, _) =>
      task.Some? && task.value.OfFiber? ==>
        forall w :: 0 <= w < |s.workers| && Resting(s, w, task.value.f) ==> Private(s, Entry(task.value, thread), w)
    case Return(w, how) =>
      (how.Ends? || how.Throws?) && Runs(s, w) && s.workers[w].phase.own ==>
        forall i :: 0 <= i < |s.queue| && s.queue[i].task == OfFiber(s.workers[w].phase.f) ==> Private(s, s.queue[i], w)
    case _ => true
  }

  function After(s: Sys, e: Event): Sys
    requires Possible(s, e)
  {
    match e
    case Submit(task, thread, _) => Submitted(s, task, thread)
    case Create(c) => Created(s, c)
    case Begin(w) => Moved(s, w, if Stopping(s) then Left else Head, 0, s.workers[w].idleDone)
    case Take(w) => Taken(s, w, First(s.queue, s.fibers, w, 0))
    case Return(w, how) => Returned(s, w, how)
    case Rest(w) => Moved(s, w, Idle, 1, false)
    case Check(w) => Moved(s, w, Head, -1, Stopping(s))
    case Leave(w) => Moved(s, w, Left, 0, true)
    case Stop => s.(autoStop := true, stopping := true)
  }

  // ----- what every step keeps ----------------------------------------------------------------

  function Tally(ws: seq<Worker>, p: Worker -> bool): nat
  {
    if ws == [] then 0 else Tally(ws[1..], p) + (if p(ws[0]) then 1 else 0)
  }

  predicate Holding(x: Worker) { x.phase.Running? }

  predicate Idling(x: Worker) { x.phase.Idle? }

  lemma {:induction false} TallyUpdate(ws: seq<Worker>, p: Worker -> bool, w: nat, x: Worker)
    requires w < |ws|
    ensures Tally(ws[w := x], p) + (if p(ws[w]) then 1 else 0) == Tally(ws, p) + (if p(x) then 1 else 0)
  {
    if w == 0 {
      assert ws[w := x][1..] == ws[1..];
    } else {
      assert ws[w := x][1..] == ws[1..][w - 1 := x];
      TallyUpdate(ws[1..], p, w - 1, x);
    }
  }

  lemma {:induction false} TallyZero(ws: seq<Worker>, p: Worker -> bool)
    ensures Tally(ws, p) == 0 <==> forall w :: 0 <= w < |ws| ==> !p(ws[w])
  {
    if ws != [] {
      TallyZero(ws[1..], p);
      assert forall w :: 1 <= w < |ws| ==> ws[w] == ws[1..][w - 1];
    }
  }

  /** How often a callback waits in the queue. */
  function Pending(queue: seq<Entry>, c: Callback): nat
  {
    if queue == [] then 0 else Pending(queue[1..], c) + (if queue[0].task == OfCallback(c) then 1 else 0)
  }

  function Carries(x: Fiber, c: Callback): nat
  {
    if !Dead(x) && x.cb == Some(c) then 1 else 0
  }

  /** How many live fibers carry a callback. */
  function Live(fibers: seq<Fiber>, c: Callback): nat
  {
    if fibers == [] then 0 else Carries(fibers[0], c) + Live(fibers[1..], c)
  }

  lemma {:induction false} LiveUpdate(fs: seq<Fiber>, f: nat, x: Fiber, c: Callback)
    requires f < |fs|
    ensures Live(fs[f := x], c) + Carries(fs[f], c) == Live(fs, c) + Carries(x, c)
  {
    if f == 0 {
      assert fs[f := x][1..] == fs[1..];
    } else {
      assert fs[f := x][1..] == fs[1..][f - 1 := x];
      LiveUpdate(fs[1..], f - 1, x, c);
    }
  }

  lemma {:induction false} LiveSnoc(fs: seq<Fiber>, x: Fiber, c: Callback)
    ensures Live(fs + [x], c) == Live(fs, c) + Carries(x, c)
  {
    if fs == [] {
      assert fs + [x] == [x];
    } else {
      assert (fs + [x])[1..] == fs[1..] + [x];
      LiveSnoc(fs[1..], x, c);
    }
  }

  lemma {:induction false} PendingJoin(p: seq<Entry>, q: seq<Entry>, c: Callback)
    ensures Pending(p + q, c) == Pending(p, c) + Pending(q, c)
  {
    if p == [] {
      assert p + q == q;
    } else {
      assert (p + q)[1..] == p[1..] + q;
      PendingJoin(p[1..], q, c);
    }
  }

  lemma PendingSnoc(q: seq<Entry>, x: Entry, c: Callback)
    ensures Pending(q + [x], c) == Pending(q, c) + (if x.task == OfCallback(c) then 1 else 0)
  {
    PendingJoin(q, [x], c);
    assert [x][1..] == [];
  }

  lemma PendingWithout(q: seq<Entry>, i: nat, c: Callback)
    requires i < |q|
    ensures Pending(q, c) == Pending(Without(q, i), c) + (if q[i].task == OfCallback(c) then 1 else 0)
  {
    assert q == (q[..i] + [q[i]]) + q[i + 1..];
    PendingJoin(q[..i] + [q[i]], q[i + 1..], c);
    PendingSnoc(q[..i], q[i], c);
    PendingJoin(q[..i], q[i + 1..], c);
  }

  predicate Traced(s: Sys, c: Callback)
  {
    Pending(s.queue, c) + Live(s.fibers, c) + s.finished[c] == s.issued[c]
  }

  /** Every callback handed in is queued, carried by a live fiber or finished, once. */
  ghost predicate Conserved(s: Sys)
  {
    forall c :: Traced(s, c)
  }

  predicate Counted(s: Sys)
  {
    s.active == Tally(s.workers, Holding) && s.idle == Tally(s.workers, Idling)
  }

  /** A callback fiber that runs no callback is reset, or died running a stale entry of its
      own worker, or is doing so. */
  predicate WorkerOk(s: Sys, x: Worker)
  {
    && (x.own.Some? ==>
          && x.own.value < |s.fibers|
          && (x.phase == Running(x.own.value, true) <==> s.fibers[x.own.value].cb.Some?)
          && ((x.phase.Running? && x.phase.f == x.own.value) || s.fibers[x.own.value].state in {INIT, EXECEP}))
    && (x.phase.Left? ==> x.own.None?)
    && (x.phase.Running? ==>
          && x.phase.f < |s.fibers| && s.fibers[x.phase.f].state == EXEC
          && (x.phase.own ==> x.own == Some(x.phase.f)))
  }

  predicate WorkersOk(s: Sys)
  {
    forall w :: 0 <= w < |s.workers| ==> WorkerOk(s, s.workers[w])
  }

  predicate Has(x: Worker, f: nat)
  {
    x.own == Some(f) || (x.phase.Running? && x.phase.f == f)
  }

  /** No fiber belongs to two workers. */
  ghost predicate Apart(x: Worker, y: Worker)
  {
    forall f :: Has(x, f) ==> !Has(y, f)
  }

  ghost predicate AllApart(ws: seq<Worker>)
  {
    forall v, w :: 0 <= v < |ws| && 0 <= w < |ws| && v != w ==> Apart(ws[v], ws[w])
  }

  predicate HeldBy(s: Sys, f: nat, w: nat)
  {
    w < |s.workers| && s.workers[w].phase.Running? && s.workers[w].phase.f == f
  }

  ghost predicate FiberOk(s: Sys, f: nat)
    requires f < |s.fibers|
  {
    var x := s.fibers[f];
    && (x.state == EXEC ==> exists w: nat :: HeldBy(s, f, w))
    && (x.state == READY ==> Queued(s, f))
  }

  ghost predicate FibersOk(s: Sys)
  {
    forall f :: 0 <= f < |s.fibers| ==> FiberOk(s, f)
  }

  /** No other worker can come to take a worker's resting callback fiber. */
  predicate EntryOk(s: Sys, x: Entry)
  {
    x.task.OfFiber? ==>
      && x.task.f < |s.fibers|
      && forall w :: 0 <= w < |s.workers| && Resting(s, w, x.task.f) ==> Private(s, x, w)
  }

  predicate QueueOk(s: Sys)
  {
    forall i :: 0 <= i < |s.queue| ==> EntryOk(s, s.queue[i])
  }

  ghost predicate Inv(s: Sys)
  {
    !s.aborted && Counted(s) && Conserved(s) && WorkersOk(s) && AllApart(s.workers) && FibersOk(s) && QueueOk(s)
  }

  // ----- queue and workers, one change at a time --------------------------------------------------

  /** Appending an entry queues its fiber and no other. */
  lemma QueueGrows(s: Sys, t: Sys, x: Entry)
    requires t.queue == s.queue + [x]
    ensures forall f :: Queued(t, f) <==> Queued(s, f) || x.task == OfFiber(f)
  {
    forall f
      ensures Queued(t, f) <==> Queued(s, f) || x.task == OfFiber(f)
    {
      if Queued(s, f) {
        var i :| 0 <= i < |s.queue| && s.queue[i].task == OfFiber(f);
        assert t.queue[i].task == OfFiber(f);
      }
      if x.task == OfFiber(f) {
        assert t.queue[|s.queue|].task == OfFiber(f);
      }
    }
  }

  /** Removing an entry leaves every other fiber queued as it was. */
  lemma QueueShrinks(s: Sys, t: Sys, i: nat)
    requires i < |s.queue| && t.queue == Without(s.queue, i)
    ensures forall f :: Queued(t, f) ==> Queued(s, f)
    ensures forall f :: Queued(s, f) && s.queue[i].task != OfFiber(f) ==> Queued(t, f)
  {
    assert forall k :: 0 <= k < |t.queue| ==> t.queue[k] == s.queue[if k < i then k else k + 1];
    forall f | Queued(s, f) && s.queue[i].task != OfFiber(f)
      ensures Queued(t, f)
    {
      var k :| 0 <= k < |s.queue| && s.queue[k].task == OfFiber(f);
      assert t.queue[if k < i then k else k - 1].task == OfFiber(f);
    }
  }

  lemma SameQueue(s: Sys, t: Sys)
    requires s.queue == t.queue
    ensures forall f :: Queued(s, f) <==> Queued(t, f)
  {
  }

  predicate OnlyWorker(s: Sys, t: Sys, w: nat)
  {
    && w < |s.workers| == |t.workers|
    && forall v :: 0 <= v < |s.workers| && v != w ==> t.workers[v] == s.workers[v]
  }

  /** A fiber held by a worker stays held when another worker changes. */
  lemma HeldElsewhere(s: Sys, t: Sys, f: nat, w: nat)
    requires OnlyWorker(s, t, w) && (HeldBy(s, f, w) ==> HeldBy(t, f, w))
    ensures (exists v: nat :: HeldBy(s, f, v)) ==> exists v: nat :: HeldBy(t, f, v)
  {
    if v: nat :| HeldBy(s, f, v) {
      assert HeldBy(t, f, v);
    }
  }

  lemma ApartAfter(s: Sys, t: Sys, w: nat)
    requires OnlyWorker(s, t, w) && AllApart(s.workers)
    requires forall f, v :: 0 <= v < |s.workers| && v != w && Has(t.workers[w], f) ==> !Has(s.workers[v], f)
    ensures AllApart(t.workers)
  {
    forall u, v | 0 <= u < |t.workers| && 0 <= v < |t.workers| && u != v
      ensures Apart(t.workers[u], t.workers[v])
    {
      if u != w && v != w {
        assert Apart(s.workers[u], s.workers[v]);
      }
    }
  }

  lemma CountedAfter(s: Sys, t: Sys, w: nat)
    requires w < |s.workers| == |t.workers| && Counted(s) && t.workers == s.workers[w := t.workers[w]]
    requires t.active - s.active == (if Holding(t.workers[w]) then 1 else 0) - (if Holding(s.workers[w]) then 1 else 0)
    requires t.idle - s.idle == (if Idling(t.workers[w]) then 1 else 0) - (if Idling(s.workers[w]) then 1 else 0)
    ensures Counted(t)
  {
    TallyUpdate(s.workers, Holding, w, t.workers[w]);
    TallyUpdate(s.workers, Idling, w, t.workers[w]);
  }

  // ----- every step keeps the invariant ---------------------------------------------------------------

  /** Workers that left stay away, so an entry that was private stays so. */
  lemma EntryStays(s: Sys, t: Sys, x: Entry)
    requires EntryOk(s, x) && |s.fibers| <= |t.fibers| && |t.workers| == |s.workers|
    requires forall v :: 0 <= v < |s.workers| && s.workers[v].phase.Left? ==> t.workers[v].phase.Left?
    requires forall w :: 0 <= w < |s.workers| && x.task.OfFiber? && Resting(t, w, x.task.f) ==> Resting(s, w, x.task.f)
    ensures EntryOk(t, x)
  {
    if x.task.OfFiber? {
      forall w | 0 <= w < |t.workers| && Resting(t, w, x.task.f)
        ensures Private(t, x, w)
      {
        assert Private(s, x, w);
        forall v | 0 <= v < |t.workers| && v != w
          ensures !Reaches(t, x, v)
        {
          assert !Reaches(s, x, v);
        }
      }
    }
  }

  lemma SubmitKeeps(s: Sys, task: Option<Task>, thread: Option<nat>)
    requires Inv(s)
    requires task.Some? ==> EntryOk(s, Entry(task.value, thread))
    ensures Inv(Submitted(s, task, thread))
  {
    hide Tally, Pending, Live, Queued, Counted, EntryOk;
    if task.Some? {
      var t, x := Submitted(s, task, thread), Entry(task.value, thread);
      forall c
        ensures Traced(t, c)
      {
        assert Traced(s, c);
        PendingSnoc(s.queue, x, c);
      }
      QueueGrows(s, t, x);
      SubmitKeepsOwners(s, t, x);
      assert Counted(t) by { SameCounts(s, t); }
      forall i | 0 <= i < |t.queue|
        ensures EntryOk(t, t.queue[i])
      {
        EntryStays(s, t, t.queue[i]);
      }
    }
  }

  lemma SameTraces(s: Sys, t: Sys)
    requires Conserved(s) && t.queue == s.queue && t.fibers == s.fibers && t.finished == s.finished && t.issued == s.issued
    ensures Conserved(t)
  {
    forall c
      ensures Traced(t, c)
    {
      assert Traced(s, c);
    }
  }

  lemma SameCounts(s: Sys, t: Sys)
    requires Counted(s) && t.active == s.active && t.idle == s.idle && t.workers == s.workers
    ensures Counted(t)
  {
  }

  lemma SubmitKeepsOwners(s: Sys, t: Sys, x: Entry)
    requires WorkersOk(s) && FibersOk(s) && t.workers == s.workers && t.fibers == s.fibers
    requires forall f :: Queued(t, f) <==> Queued(s, f) || x.task == OfFiber(f)
    ensures WorkersOk(t) && FibersOk(t)
  {
    hide Queued;
    forall f | 0 <= f < |t.fibers|
      ensures FiberOk(t, f)
    {
      assert FiberOk(s, f);
      if w: nat :| HeldBy(s, f, w) {
        assert HeldBy(t, f, w);
      }
    }
    forall w | 0 <= w < |t.workers|
      ensures WorkerOk(t, t.workers[w])
    {
      assert WorkerOk(s, s.workers[w]);
    }
  }

  /** Only worker `w` and fiber `f`, which no other worker has, change. */
  ghost predicate OnlyFiber(s: Sys, t: Sys, w: nat, f: nat)
  {
    && OnlyWorker(s, t, w)
    && f <= |s.fibers| && |t.fibers| == (if f < |s.fibers| then |s.fibers| else f + 1)
    && (forall g :: 0 <= g < |s.fibers| && g != f ==> t.fibers[g] == s.fibers[g])
    && (forall g :: g != f ==> (Queued(t, g) <==> Queued(s, g)))
    && (forall v :: 0 <= v < |s.workers| && v != w ==> !Has(s.workers[v], f))
    && (forall g :: g != f && HeldBy(s, g, w) ==> HeldBy(t, g, w))
  }

  lemma OwnersAfter(s: Sys, t: Sys, w: nat, f: nat)
    requires WorkersOk(s) && FibersOk(s) && OnlyFiber(s, t, w, f) && WorkerOk(t, t.workers[w]) && FiberOk(t, f)
    ensures WorkersOk(t) && FibersOk(t)
  {
    hide Queued;
    forall g | 0 <= g < |t.fibers|
      ensures FiberOk(t, g)
    {
      if g != f {
        assert FiberOk(s, g);
        HeldElsewhere(s, t, g, w);
      }
    }
    forall v | 0 <= v < |t.workers|
      ensures WorkerOk(t, t.workers[v])
    {
      if v != w {
        assert WorkerOk(s, s.workers[v]) && !Has(s.workers[v], f);
      }
    }
  }

  /** The entries that were in the queue, when only worker `w` changed and no fiber came to rest. */
  lemma QueueAfter(s: Sys, t: Sys, w: nat)
    requires QueueOk(s) && OnlyWorker(s, t, w) && |s.fibers| <= |t.fibers|
    requires s.workers[w].phase.Left? ==> t.workers[w].phase.Left?
    requires forall v, g :: Resting(t, v, g) ==> Resting(s, v, g)
    requires forall i :: 0 <= i < |t.queue| ==> t.queue[i] in s.queue
    ensures QueueOk(t)
  {
    hide EntryOk;
    forall i | 0 <= i < |t.queue|
      ensures EntryOk(t, t.queue[i])
    {
      var x := t.queue[i];
      if k :| 0 <= k < |s.queue| && s.queue[k] == x {
        EntryStays(s, t, x);
      }
    }
  }

  lemma CreateKeeps(s: Sys, c: Callback)
    requires Inv(s)
    ensures Inv(Created(s, c))
  {
    hide Tally, Pending, Live, Queued, Counted, AllApart, EntryOk;
    var t := Created(s, c);
    assert Counted(t) by { SameCounts(s, t); }
    SameQueue(s, t);
    forall b
      ensures Traced(t, b)
    {
      assert Traced(s, b);
      LiveSnoc(s.fibers, Fiber(INIT, Some(c)), b);
    }
    forall f | 0 <= f < |t.fibers|
      ensures FiberOk(t, f)
    {
      if f < |s.fibers| {
        assert FiberOk(s, f);
        if w: nat :| HeldBy(s, f, w) {
          assert HeldBy(t, f, w);
        }
      }
    }
    assert WorkersOk(t) by {
      forall w | 0 <= w < |t.workers| ensures WorkerOk(t, t.workers[w]) {
        assert WorkerOk(s, s.workers[w]);
      }
    }
    forall i | 0 <= i < |t.queue|
      ensures EntryOk(t, t.queue[i])
    {
      EntryStays(s, t, t.queue[i]);
    }
  }

  /** A worker that starts, rests, checks or leaves. */
  lemma MoveKeeps(s: Sys, w: nat, phase: Phase, idle: int, done: bool)
    requires Inv(s) && w < |s.workers| && !s.workers[w].phase.Running? && !phase.Running?
    requires s.workers[w].phase.Left? ==> phase.Left?
    requires idle == (if phase.Idle? then 1 else 0) - (if s.workers[w].phase.Idle? then 1 else 0)
    ensures Inv(Moved(s, w, phase, idle, done))
  {
    hide Tally, Pending, Live, Queued, Counted, AllApart, EntryOk, QueueOk, Conserved;
    var t := Moved(s, w, phase, idle, done);
    SameQueue(s, t);
    SameTraces(s, t);
    CountedAfter(s, t, w);
    forall f, v | 0 <= v < |s.workers| && v != w && Has(t.workers[w], f)
      ensures !Has(s.workers[v], f)
    {
      NotShared(s, w, v, f);
    }
    ApartAfter(s, t, w);
    forall f | 0 <= f < |t.fibers|
      ensures FiberOk(t, f)
    {
      assert FiberOk(s, f);
      HeldElsewhere(s, t, f, w);
    }
    assert WorkersOk(t) by {
      forall v | 0 <= v < |t.workers| ensures WorkerOk(t, t.workers[v]) {
        assert WorkerOk(s, s.workers[v]);
      }
    }
    QueueAfter(s, t, w);
  }

  lemma NotShared(s: Sys, w: nat, v: nat, f: nat)
    requires AllApart(s.workers) && w < |s.workers| && v < |s.workers| && v != w && Has(s.workers[w], f)
    ensures !Has(s.workers[v], f)
  {
    assert Apart(s.workers[w], s.workers[v]);
  }

  /** A live fiber that worker `w` may take belongs to no other worker. */
  lemma TakenIsLoose(s: Sys, w: nat, i: nat, v: nat)
    requires WorkersOk(s) && QueueOk(s) && At(s, w, Head) && v < |s.workers| && v != w
    requires i < |s.queue| && s.queue[i].task.OfFiber? && (s.queue[i].thread == None || s.queue[i].thread == Some(w))
    requires s.queue[i].task.f < |s.fibers|
    requires s.fibers[s.queue[i].task.f].state != EXEC && !Dead(s.fibers[s.queue[i].task.f])
    ensures !Has(s.workers[v], s.queue[i].task.f)
  {
    hide Private;
    var x := s.queue[i];
    assert EntryOk(s, x) && WorkerOk(s, s.workers[v]);
    if Resting(s, v, x.task.f) {
      PrivateExcludes(s, x, v, w);
    }
  }

  lemma PrivateExcludes(s: Sys, x: Entry, v: nat, w: nat)
    requires Private(s, x, v) && w != v
    ensures !Reaches(s, x, w)
  {
  }

  /** An entry for a fiber that ended is dropped. */
  lemma DropKeeps(s: Sys, w: nat, i: nat)
    requires Inv(s) && At(s, w, Head) && i < |s.queue| && s.queue[i].task.OfFiber?
    requires s.queue[i].task.f < |s.fibers| && Dead(s.fibers[s.queue[i].task.f])
    ensures Inv(Taken(s, w, i))
  {
    hide Tally, Pending, Live, Queued, Counted, AllApart, QueueOk, EntryOk;
    var t := Taken(s, w, i);
    QueueShrinks(s, t, i);
    assert Counted(t) by { SameCounts(s, t); }
    forall c
      ensures Traced(t, c)
    {
      assert Traced(s, c);
      PendingWithout(s.queue, i, c);
    }
    forall g | 0 <= g < |t.fibers|
      ensures FiberOk(t, g)
    {
      assert FiberOk(s, g);
      HeldElsewhere(s, t, g, w);
    }
    assert WorkersOk(t) by {
      forall v | 0 <= v < |t.workers| ensures WorkerOk(t, t.workers[v]) {
        assert WorkerOk(s, s.workers[v]);
      }
    }
    QueueAfter(s, t, w);
  }

  lemma TakeFiberKeeps(s: Sys, w: nat, i: nat)
    requires Inv(s) && At(s, w, Head) && i < |s.queue| && s.queue[i].task.OfFiber?
    requires s.queue[i].task.f < |s.fibers|
    requires s.fibers[s.queue[i].task.f].state != EXEC && !Dead(s.fibers[s.queue[i].task.f])
    requires s.queue[i].thread == None || s.queue[i].thread == Some(w)
    ensures Inv(Taken(s, w, i))
  {
    hide Tally, Pending, Live, Queued, Counted, AllApart, WorkersOk, QueueOk, EntryOk;
    var t, f := Taken(s, w, i), s.queue[i].task.f;
    QueueShrinks(s, t, i);
    assert FiberOk(s, f);
    forall v | 0 <= v < |s.workers| && v != w
      ensures !Has(s.workers[v], f)
    {
      TakenIsLoose(s, w, i, v);
    }
    forall c
      ensures Traced(t, c)
    {
      assert Traced(s, c);
      PendingWithout(s.queue, i, c);
      LiveUpdate(s.fibers, f, t.fibers[f], c);
    }
    CountedAfter(s, t, w);
    WorkerWas(s, w);
    forall g, v | 0 <= v < |s.workers| && v != w && Has(t.workers[w], g)
      ensures !Has(s.workers[v], g)
    {
      if g != f {
        NotShared(s, w, v, g);
      }
    }
    ApartAfter(s, t, w);
    assert HeldBy(t, f, w);
    OwnersAfter(s, t, w, f);
    QueueAfter(s, t, w);
  }

  lemma WorkerWas(s: Sys, w: nat)
    requires WorkersOk(s) && w < |s.workers|
    ensures WorkerOk(s, s.workers[w])
  {
  }

  /** A new or recycled callback fiber starts on a callback. */
  lemma TakeCallbackKeeps(s: Sys, w: nat, i: nat)
    requires Inv(s) && At(s, w, Head) && i < |s.queue| && s.queue[i].task.OfCallback?
    ensures Inv(Taken(s, w, i))
  {
    hide Tally, Pending, Live, Queued, Counted, AllApart, WorkersOk, QueueOk, EntryOk;
    var t := Taken(s, w, i);
    WorkerWas(s, w);
    QueueShrinks(s, t, i);
    var own := s.workers[w].own;
    var f := if own.Some? then own.value else |s.fibers|;
    forall c
      ensures Traced(t, c)
    {
      assert Traced(s, c);
      PendingWithout(s.queue, i, c);
      if own.Some? {
        LiveUpdate(s.fibers, f, t.fibers[f], c);
      } else {
        LiveSnoc(s.fibers, t.fibers[f], c);
      }
    }
    CountedAfter(s, t, w);
    forall v | 0 <= v < |s.workers| && v != w
      ensures !Has(s.workers[v], f)
    {
      if own.Some? {
        NotShared(s, w, v, f);
      } else {
        WorkerWas(s, v);
      }
    }
    ApartAfter(s, t, w);
    assert HeldBy(t, f, w);
    OwnersAfter(s, t, w, f);
    QueueAfter(s, t, w);
  }

  lemma ReturnKeeps(s: Sys, w: nat, how: How)
    requires Inv(s) && Possible(s, Return(w, how)) && Fair(s, Return(w, how))
    ensures Inv(Returned(s, w, how))
  {
    hide Tally, Pending, Live, Queued, Counted, AllApart, WorkersOk, QueueOk, Conserved, Fair;
    var t, f := Returned(s, w, how), s.workers[w].phase.f;
    WorkerWas(s, w);
    assert FiberOk(s, f);
    if how.Yields? {
      QueueGrows(s, t, Entry(OfFiber(f), None));
    } else {
      SameQueue(s, t);
    }
    ReturnConserves(s, w, how);
    CountedAfter(s, t, w);
    forall v | 0 <= v < |s.workers| && v != w
      ensures !Has(s.workers[v], f)
    {
      NotShared(s, w, v, f);
    }
    forall g, v | 0 <= v < |s.workers| && v != w && Has(t.workers[w], g)
      ensures !Has(s.workers[v], g)
    {
      NotShared(s, w, v, g);
    }
    ApartAfter(s, t, w);
    OwnersAfter(s, t, w, f);
    ReturnQueue(s, w, how);
  }

  lemma ReturnConserves(s: Sys, w: nat, how: How)
    requires Conserved(s) && Runs(s, w) && s.fibers[s.workers[w].phase.f].state == EXEC
    ensures Conserved(Returned(s, w, how))
  {
    hide Pending, Live, Returned;
    forall c
      ensures Traced(Returned(s, w, how), c)
    {
      assert Traced(s, c);
      ReturnTraces(s, w, how, c);
    }
  }

  lemma ReturnTraces(s: Sys, w: nat, how: How, c: Callback)
    requires Traced(s, c) && Runs(s, w) && s.fibers[s.workers[w].phase.f].state == EXEC
    ensures Traced(Returned(s, w, how), c)
  {
    hide Pending, Live;
    var t, f := Returned(s, w, how), s.workers[w].phase.f;
    PendingSnoc(s.queue, Entry(OfFiber(f), None), c);
    LiveUpdate(s.fibers, f, t.fibers[f], c);
  }

  /** The queue after a return: a requeued fiber is nobody's own, and one that comes to rest is
      queued for no other worker. */
  lemma ReturnQueue(s: Sys, w: nat, how: How)
    requires QueueOk(s) && AllApart(s.workers) && WorkersOk(s)
    requires Possible(s, Return(w, how)) && Fair(s, Return(w, how))
    ensures QueueOk(Returned(s, w, how))
  {
    hide AllApart, WorkersOk, Private, Queued;
    var t, f := Returned(s, w, how), s.workers[w].phase.f;
    WorkerWas(s, w);
    forall i | 0 <= i < |t.queue|
      ensures EntryOk(t, t.queue[i])
    {
      var x := t.queue[i];
      if i < |s.queue| {
        assert EntryOk(s, x);
      }
      forall v | 0 <= v < |t.workers| && x.task.OfFiber? && Resting(t, v, x.task.f)
        ensures Private(t, x, v)
      {
        if v != w && x.task.f == f {
          NotShared(s, w, v, f);
        }
        assert Private(s, x, v);
        PrivateStays(s, t, x, v);
      }
    }
  }

  lemma PrivateStays(s: Sys, t: Sys, x: Entry, w: nat)
    requires Private(s, x, w) && |t.workers| == |s.workers|
    requires forall v :: 0 <= v < |s.workers| && s.workers[v].phase.Left? ==> t.workers[v].phase.Left?
    ensures Private(t, x, w)
  {
    forall v | 0 <= v < |t.workers| && v != w
      ensures !Reaches(t, x, v)
    {
      assert !Reaches(s, x, v);
    }
  }

  /** Every step that the code can take and the clients play by keeps the invariant;
      in particular no assertion of the code fails. */
  lemma StepKeeps(s: Sys, e: Event)
    requires Inv(s) && Possible(s, e) && Fair(s, e)
    ensures Inv(After(s, e))
  {
    hide Inv, Submitted, Created, Moved, Returned, Queued, Taken, Finds, Private;
    match e
    case Submit(task, thread, _) => SubmitKeeps(s, task, thread);
    case Create(c) => CreateKeeps(s, c);
    case Begin(w) => MoveKeeps(s, w, if Stopping(s) then Left else Head, 0, s.workers[w].idleDone);
    case Take(w) => TakeKeeps(s, w);
    case Return(w, how) => ReturnKeeps(s, w, how);
    case Rest(w) => MoveKeeps(s, w, Idle, 1, false);
    case Check(w) => MoveKeeps(s, w, Head, -1, Stopping(s));
    case Leave(w) => MoveKeeps(s, w, Left, 0, true);
    case Stop => StopKeeps(s);
  }

  lemma TakeKeeps(s: Sys, w: nat)
    requires Inv(s) && At(s, w, Head) && Finds(s, w)
    ensures Inv(Taken(s, w, First(s.queue, s.fibers, w, 0)))
  {
    hide Counted, Conserved, AllApart, WorkersOk, FibersOk, Taken;
    var i := First(s.queue, s.fibers, w, 0);
    assert EntryOk(s, s.queue[i]);
    if s.queue[i].task.OfFiber? {
      if Dead(s.fibers[s.queue[i].task.f]) {
        DropKeeps(s, w, i);
      } else {
        TakeFiberKeeps(s, w, i);
      }
    } else {
      TakeCallbackKeeps(s, w, i);
    }
  }

  lemma StopKeeps(s: Sys)
    requires Inv(s)
    ensures Inv(s.(autoStop := true, stopping := true))
  {
    hide Tally, Queued, EntryOk, Conserved;
    var t := s.(autoStop := true, stopping := true);
    SameQueue(s, t);
    SameTraces(s, t);
    forall f | 0 <= f < |t.fibers|
      ensures FiberOk(t, f)
    {
      assert FiberOk(s, f);
      if w: nat :| HeldBy(s, f, w) {
        assert HeldBy(t, f, w);
      }
    }
    forall i | 0 <= i < |t.queue|
      ensures EntryOk(t, t.queue[i])
    {
      EntryStays(s, t, t.queue[i]);
    }
  }
}
