/**
 Whole runs of the scheduler, and the object that performs the steps.
*/
module SchedulerRuns {
  import opened Wrappers
  import opened Schedulers

  // ----- runs -----------------------------------------------------------------------------

  /** A started scheduler with `n` threads and, with `caller`, one more worker that the
      caller's thread becomes in `stop`. */
  function Initial(n: nat, caller: bool): Sys
  {
    var threads := seq(n, i => Worker(Head, None, false));
    Sys([], [], threads + (if caller then [Worker(Waiting, None, false)] else []),
        0, 0, false, false, false, multiset{}, multiset{})
  }

  predicate Legal(s: Sys, es: seq<Event>)
    decreases |es|
  {
    es == [] || (Possible(s, es[0]) && Fair(s, es[0]) && Legal(After(s, es[0]), es[1..]))
  }

  function AfterAll(s: Sys, es: seq<Event>): Sys
    requires Legal(s, es)
    decreases |es|
  {
    if es == [] then s else AfterAll(After(s, es[0]), es[1..])
  }

  lemma InitialInv(n: nat, caller: bool)
    ensures Inv(Initial(n, caller))
  {
    hide Tally;
    var s := Initial(n, caller);
    TallyZero(s.workers, Holding);
    TallyZero(s.workers, Idling);
  }

  /** In every reachable state the counters are exact, no fiber has two holders, every
      task is accounted for and no assertion of the code has failed. */
  lemma {:induction false} EveryRunIsSafe(s: Sys, es: seq<Event>)
    requires Inv(s) && Legal(s, es)
    ensures Inv(AfterAll(s, es))
    decreases |es|
  {
    hide Inv, After, Possible, Fair;
    if es != [] {
      StepKeeps(s, es[0]);
      EveryRunIsSafe(After(s, es[0]), es[1..]);
    }
  }

  // ----- what the invariant means -------------------------------------------------------------

  /** A fiber executes exactly when one worker, and only one, holds it. */
  lemma OneHolder(s: Sys, f: nat, v: nat, w: nat)
    requires Inv(s) && f < |s.fibers|
    ensures s.fibers[f].state == EXEC <==> exists u: nat :: HeldBy(s, f, u)
    ensures HeldBy(s, f, v) && HeldBy(s, f, w) ==> v == w
  {
    hide Counted, Conserved;
    assert FiberOk(s, f);
    if HeldBy(s, f, v) && HeldBy(s, f, w) && v != w {
      NotShared(s, v, w, f);
    }
    if u: nat :| HeldBy(s, f, u) {
      assert WorkerOk(s, s.workers[u]);
    }
  }

  /** At the head of its loop a worker's callback fiber is absent, or has no callback, is INIT
      or EXECEP, and belongs to no other worker; while it is INIT no other worker can come to
      take it. So `reset` may be applied to it. */
  lemma CallbackFiberAtHead(s: Sys, w: nat, v: nat)
    requires Inv(s) && At(s, w, Head) && s.workers[w].own.Some? && v < |s.workers|
    ensures var f := s.workers[w].own.value;
            && f < |s.fibers| && s.fibers[f].cb == None && s.fibers[f].state in {INIT, EXECEP}
            && !HeldBy(s, f, v) && (v != w ==> s.workers[v].own != Some(f))
            && (s.fibers[f].state == INIT ==>
                  forall i :: 0 <= i < |s.queue| && s.queue[i].task == OfFiber(f) ==> Private(s, s.queue[i], w))
  {
    hide Counted, Conserved, FibersOk, Private;
    var f := s.workers[w].own.value;
    assert WorkerOk(s, s.workers[w]);
    if v != w {
      NotShared(s, w, v, f);
    }
    forall i | 0 <= i < |s.queue| && s.queue[i].task == OfFiber(f) && s.fibers[f].state == INIT
      ensures Private(s, s.queue[i], w)
    {
      assert EntryOk(s, s.queue[i]) && Resting(s, w, f);
    }
  }

  predicate Carrier(s: Sys, c: Callback, f: nat) { f < |s.fibers| && Carries(s.fibers[f], c) == 1 }

  lemma {:induction false} CarriersCounted(fs: seq<Fiber>, c: Callback, f: nat, g: nat)
    requires f < g < |fs| && Carries(fs[f], c) == 1 && Carries(fs[g], c) == 1
    ensures Live(fs, c) >= 2
  {
    if f == 0 {
      OneCarrier(fs[1..], c, g - 1);
    } else {
      CarriersCounted(fs[1..], c, f - 1, g - 1);
    }
  }

  lemma {:induction false} OneCarrier(fs: seq<Fiber>, c: Callback, f: nat)
    requires f < |fs| && Carries(fs[f], c) == 1
    ensures Live(fs, c) >= 1
  {
    if f > 0 {
      OneCarrier(fs[1..], c, f - 1);
    }
  }

  lemma {:induction false} FindCarrier(fs: seq<Fiber>, c: Callback) returns (f: nat)
    requires Live(fs, c) >= 1
    ensures f < |fs| && Carries(fs[f], c) == 1
  {
    if Carries(fs[0], c) == 1 {
      f := 0;
    } else {
      var g := FindCarrier(fs[1..], c);
      f := g + 1;
    }
  }

  /** A callback handed in once is in exactly one place: in one queue entry, carried by one
      live fiber, or finished. The fiber is held by exactly one worker, or ready and
      queued, or parked. */
  lemma OnePlace(s: Sys, c: Callback)
    requires Inv(s) && s.issued[c] == 1
    ensures (Pending(s.queue, c), Live(s.fibers, c), s.finished[c]) in {(1, 0, 0), (0, 1, 0), (0, 0, 1)}
    ensures (exists f: nat :: Carrier(s, c, f)) <==> Live(s.fibers, c) == 1
    ensures forall f: nat, g: nat :: Carrier(s, c, f) && Carrier(s, c, g) ==> f == g
    ensures forall f: nat :: Carrier(s, c, f) && s.fibers[f].state == EXEC ==> exists w: nat :: HeldBy(s, f, w)
    ensures forall f: nat :: Carrier(s, c, f) && s.fibers[f].state == READY ==> Queued(s, f)
  {
    hide Counted, Pending, Live, Queued, Carries, AllApart, WorkersOk;
    assert Traced(s, c);
    if Live(s.fibers, c) == 1 {
      var f := FindCarrier(s.fibers, c);
      assert Carrier(s, c, f);
    }
    forall f: nat, g: nat | Carrier(s, c, f) && Carrier(s, c, g)
      ensures f == g && Live(s.fibers, c) >= 1
    {
      OneCarrier(s.fibers, c, f);
      if f < g {
        CarriersCounted(s.fibers, c, f, g);
      } else if g < f {
        CarriersCounted(s.fibers, c, g, f);
      }
    }
    forall f: nat | Carrier(s, c, f)
      ensures FiberOk(s, f)
    {
    }
  }

  /** `stopping` reports true only when no task is queued, ready or running. */
  lemma StoppingMeansQuiet(s: Sys)
    requires Inv(s) && Stopping(s)
    ensures s.queue == [] && forall w :: 0 <= w < |s.workers| ==> !s.workers[w].phase.Running?
    ensures forall f :: 0 <= f < |s.fibers| ==> s.fibers[f].state != EXEC && s.fibers[f].state != READY
  {
    hide Tally, Conserved, AllApart;
    TallyZero(s.workers, Holding);
    forall w | 0 <= w < |s.workers|
      ensures !s.workers[w].phase.Running?
    {
      assert !Holding(s.workers[w]);
    }
    forall f | 0 <= f < |s.fibers|
      ensures s.fibers[f].state != EXEC && s.fibers[f].state != READY
    {
      assert FiberOk(s, f);
    }
  }

  /** A take removes the earliest entry the worker may run, never one pinned to another
      thread, and keeps the order of the others. */
  lemma TakeIsFair(s: Sys, w: nat)
    requires Inv(s) && Possible(s, Take(w))
    ensures var i := First(s.queue, s.fibers, w, 0);
            && After(s, Take(w)).queue == s.queue[..i] + s.queue[i + 1..]
            && (s.queue[i].thread == None || s.queue[i].thread == Some(w))
            && forall j :: 0 <= j < i ==>
                 (s.queue[j].thread != None && s.queue[j].thread != Some(w)) ||
                 (s.queue[j].task.OfFiber? && exists v: nat :: HeldBy(s, s.queue[j].task.f, v))
  {
    hide Inv, Eligible, Queued;
    var i := First(s.queue, s.fibers, w, 0);
    forall j | 0 <= j < i
      ensures (s.queue[j].thread != None && s.queue[j].thread != Some(w)) ||
              (s.queue[j].task.OfFiber? && exists v: nat :: HeldBy(s, s.queue[j].task.f, v))
    {
      assert !Eligible(s.queue, s.fibers, w, j);
      SkippedEntry(s, w, j);
    }
    assert Eligible(s.queue, s.fibers, w, i);
    TakenEntry(s, w, i);
  }

  lemma TakenEntry(s: Sys, w: nat, i: nat)
    requires w < |s.workers| && i < |s.queue| && Eligible(s.queue, s.fibers, w, i)
    ensures s.queue[i].thread == None || s.queue[i].thread == Some(w)
    ensures Taken(s, w, i).queue == s.queue[..i] + s.queue[i + 1..]
  {
  }

  /** A scan steps over an entry that is pinned elsewhere or whose fiber runs. */
  lemma SkippedEntry(s: Sys, w: nat, j: nat)
    requires Inv(s) && j < |s.queue| && !Eligible(s.queue, s.fibers, w, j)
    ensures (s.queue[j].thread != None && s.queue[j].thread != Some(w)) ||
            (s.queue[j].task.OfFiber? && exists v: nat :: HeldBy(s, s.queue[j].task.f, v))
  {
    hide Counted, Conserved, AllApart, WorkersOk, Queued;
    if s.queue[j].task.OfFiber? {
      assert EntryOk(s, s.queue[j]);
      assert FiberOk(s, s.queue[j].task.f);
    }
  }

  /** A worker whose scan finds nothing passed only entries pinned elsewhere and running fibers. */
  lemma NothingToTake(s: Sys, w: nat)
    requires Inv(s) && !Finds(s, w)
    ensures forall j :: 0 <= j < |s.queue| ==>
      (s.queue[j].thread != None && s.queue[j].thread != Some(w)) ||
      (s.queue[j].task.OfFiber? && exists v: nat :: HeldBy(s, s.queue[j].task.f, v))
  {
    hide Inv, Eligible, Queued;
    forall j | 0 <= j < |s.queue|
      ensures (s.queue[j].thread != None && s.queue[j].thread != Some(w)) ||
              (s.queue[j].task.OfFiber? && exists v: nat :: HeldBy(s, s.queue[j].task.f, v))
    {
      assert !Eligible(s.queue, s.fibers, w, j);
      SkippedEntry(s, w, j);
    }
  }

  // ----- what each step does, fiber by fiber ----------------------------------------------------------

  /** Everything but the queue, worker `w` and fiber `f` is as it was. */
  predicate ElseSame(s: Sys, t: Sys, w: nat, f: nat)
  {
    && |t.workers| == |s.workers| && (forall v :: 0 <= v < |s.workers| && v != w ==> t.workers[v] == s.workers[v])
    && |s.fibers| <= |t.fibers| && (forall g :: 0 <= g < |s.fibers| && g != f ==> t.fibers[g] == s.fibers[g])
    && t.idle == s.idle && t.autoStop == s.autoStop && t.stopping == s.stopping && t.issued == s.issued
  }

  /** The entry taken is run: a fiber that has not ended is held by the worker and executes
      with its own callback, whether it was new, parked or ready; a callback is run on the
      worker's own fiber, a new one if it has none; a fiber that ended is only dropped. */
  lemma TakenIsRun(s: Sys, w: nat)
    requires Inv(s) && Possible(s, Take(w))
    ensures var t, x := After(s, Take(w)), s.queue[First(s.queue, s.fibers, w, 0)].task;
      match x
      case OfFiber(f) =>
        f < |s.fibers| &&
        if s.fibers[f].state == TERM || s.fibers[f].state == EXECEP then t == s.(queue := t.queue)
        else
          && HeldBy(t, f, w) && !t.workers[w].phase.own && t.workers[w].own == s.workers[w].own
          && t.fibers[f].state == EXEC && t.fibers[f].cb == s.fibers[f].cb
          && t.active == s.active + 1 && t.finished == s.finished && |t.fibers| == |s.fibers| && ElseSame(s, t, w, f)
      case OfCallback(c) =>
        var own := s.workers[w].own;
        var f := if own.Some? then own.value else |s.fibers|;
        && HeldBy(t, f, w) && t.workers[w].phase.own && t.workers[w].own == Some(f)
        && f < |t.fibers| && t.fibers[f].state == EXEC && t.fibers[f].cb == Some(c)
        && t.active == s.active + 1 && t.finished == s.finished && ElseSame(s, t, w, f)
  {
    hide Counted, Conserved, FibersOk, AllApart, Queued, Without, WorkersOk;
    var i := First(s.queue, s.fibers, w, 0);
    WorkerWas(s, w);
    assert EntryOk(s, s.queue[i]) && Eligible(s.queue, s.fibers, w, i);
  }

  /** How control comes back: a fiber that yields is ready and queued last for any thread; one
      that parks is on hold and not requeued; one that ends or throws counts its callback
      as finished, and is reset if it was the worker's own, dead otherwise. */
  lemma ReturnedIsSettled(s: Sys, w: nat, how: How)
    requires Inv(s) && Possible(s, Return(w, how))
    ensures var t, f := After(s, Return(w, how)), s.workers[w].phase.f;
      && At(t, w, Head) && t.active == s.active - 1 && |t.fibers| == |s.fibers| && ElseSame(s, t, w, f)
      && (how.Yields? ==>
            t.fibers[f].state == READY && t.fibers[f].cb == s.fibers[f].cb
            && t.queue == s.queue + [Entry(OfFiber(f), None)] && t.finished == s.finished)
      && (how.Parks? ==>
            t.fibers[f].state == HOLD && t.fibers[f].cb == s.fibers[f].cb && t.queue == s.queue && t.finished == s.finished)
      && (how.Ends? || how.Throws? ==>
            && t.queue == s.queue
            && t.finished == s.finished + (if s.fibers[f].cb.Some? then multiset{s.fibers[f].cb.value} else multiset{})
            && t.fibers[f].state == (if s.workers[w].phase.own then INIT else if how.Ends? then TERM else EXECEP)
            && (s.workers[w].phase.own || how.Ends? ==> t.fibers[f].cb == None))
      && t.workers[w].own ==
           if s.workers[w].phase.own && (how.Yields? || how.Parks?) then None else s.workers[w].own
  {
    hide Inv, Queued, First;
  }

  /** A task goes to the end of the queue with its pin; a null one goes nowhere. */
  lemma SubmittedIsLast(s: Sys, task: Option<Task>, thread: Option<nat>, from: Option<nat>)
    requires Possible(s, Submit(task, thread, from))
    ensures var t := After(s, Submit(task, thread, from));
      && t == s.(queue := t.queue, issued := t.issued)
      && |t.queue| == |s.queue| + (if task.Some? then 1 else 0)
      && (forall i :: 0 <= i < |s.queue| ==> t.queue[i] == s.queue[i])
      && (task.Some? ==> t.queue[|s.queue|].task == task.value && t.queue[|s.queue|].thread == thread)
  {
  }

  /** A batch is submitted task by task, each for any thread. */
  lemma {:induction false} SubmittedInTurn(s: Sys, tasks: seq<Option<Task>>, x: Option<Task>)
    ensures SubmittedAll(s, []) == s
    ensures SubmittedAll(s, tasks + [x]) == Submitted(SubmittedAll(s, tasks), x, None)
    decreases |tasks|
  {
    hide Submitted;
    if tasks == [] {
      assert tasks + [x] == [x] && [x][1..] == [];
    } else {
      assert (tasks + [x])[1..] == tasks[1..] + [x];
      SubmittedInTurn(Submitted(s, tasks[0], None), tasks[1..], x);
    }
  }

  /** A client's new fiber has its callback, has not run, and is not queued by being made. */
  lemma CreatedIsIdle(s: Sys, c: Callback)
    requires Inv(s)
    ensures var t := After(s, Create(c));
      && t.fibers == s.fibers + [Fiber(INIT, Some(c))] && t.queue == s.queue && t.workers == s.workers
      && !Queued(t, |s.fibers|)
  {
    hide Counted, Conserved, WorkersOk, AllApart, FibersOk;
    forall i | 0 <= i < |s.queue|
      ensures s.queue[i].task != OfFiber(|s.fibers|)
    {
      assert EntryOk(s, s.queue[i]);
    }
  }

  /** A worker that rests, checks, joins or leaves: its idle fiber ends if and only if stop was
      asked for and nothing is queued or runs; it leaves only with its idle fiber ended, or
      joining when that holds. */
  lemma IdleEndsExactly(s: Sys, w: nat)
    requires Inv(s)
    ensures Possible(s, Check(w)) ==>
      var t := After(s, Check(w));
      && At(t, w, Head)
      && (t.workers[w].idleDone <==>
            s.autoStop && s.stopping && s.queue == []
            && forall v :: 0 <= v < |s.workers| ==> !s.workers[v].phase.Running?)
    ensures Possible(s, Begin(w)) ==>
      var t := After(s, Begin(w));
      if s.autoStop && s.stopping && s.queue == [] && (forall v :: 0 <= v < |s.workers| ==> !s.workers[v].phase.Running?)
      then At(t, w, Left) else At(t, w, Head)
    ensures Possible(s, Rest(w)) ==> At(After(s, Rest(w)), w, Idle) && !After(s, Rest(w)).workers[w].idleDone
    ensures Possible(s, Leave(w)) ==> At(After(s, Leave(w)), w, Left)
  {
    hide Tally, Conserved, WorkersOk, AllApart, FibersOk, QueueOk, Finds;
    TallyZero(s.workers, Holding);
    assert forall v :: 0 <= v < |s.workers| ==> (Holding(s.workers[v]) <==> s.workers[v].phase.Running?);
  }

  // ----- callback fibers are never recycled once they parked -----------------------------------------

  predicate Nobodys(s: Sys, f: nat)
  {
    f < |s.fibers| && forall w :: 0 <= w < |s.workers| ==> s.workers[w].own != Some(f)
  }

  lemma NobodysStays(s: Sys, e: Event, f: nat)
    requires Inv(s) && Possible(s, e) && Nobodys(s, f)
    ensures Nobodys(After(s, e), f)
  {
    hide Counted, Conserved, FibersOk, AllApart, Queued;
  }

  lemma {:induction false} NobodysForever(s: Sys, es: seq<Event>, f: nat)
    requires Inv(s) && Legal(s, es) && Nobodys(s, f)
    ensures Nobodys(AfterAll(s, es), f)
    decreases |es|
  {
    hide Inv, After, Possible, Fair, Nobodys;
    if es != [] {
      StepKeeps(s, es[0]);
      NobodysStays(s, es[0], f);
      NobodysForever(After(s, es[0]), es[1..], f);
    }
  }

  /** After a callback's fiber yielded or parked, no worker ever resets it again. */
  lemma ParkedIsNeverRecycled(s: Sys, w: nat, how: How, es: seq<Event>)
    requires Inv(s) && Possible(s, Return(w, how)) && s.workers[w].phase.own && (how.Yields? || how.Parks?)
    requires Legal(After(s, Return(w, how)), es)
    ensures Nobodys(AfterAll(After(s, Return(w, how)), es), s.workers[w].phase.f)
  {
    hide Counted, Conserved, FibersOk, Queued;
    StepKeeps(s, Return(w, how));
    var f, t := s.workers[w].phase.f, After(s, Return(w, how));
    forall v | 0 <= v < |t.workers|
      ensures t.workers[v].own != Some(f)
    {
      if v != w {
        NotShared(s, w, v, f);
      }
    }
    NobodysForever(t, es, f);
  }

  // ----- shutdown drains the queue ------------------------------------------------------------------------

  /** After `stop` only running fibers submit. */
  predicate Calm(s: Sys, e: Event)
  {
    e.Submit? && s.stopping ==> e.from.Some?
  }

  predicate CalmRun(s: Sys, es: seq<Event>)
    requires Legal(s, es)
    decreases |es|
  {
    es == [] || (Calm(s, es[0]) && CalmRun(After(s, es[0]), es[1..]))
  }

  /** Some worker's idle fiber has terminated, or the worker has left. */
  predicate SomeDone(s: Sys)
  {
    exists w :: 0 <= w < |s.workers| && (s.workers[w].idleDone || s.workers[w].phase.Left?)
  }

  /** `stopping`, once true, stays true. */
  lemma StoppingStays(s: Sys, e: Event)
    requires Inv(s) && Possible(s, e) && Calm(s, e) && Stopping(s)
    ensures Stopping(After(s, e))
  {
    hide Inv, Fair;
    StoppingMeansQuiet(s);
  }

  lemma DoneMeansStopping(s: Sys, e: Event)
    requires Inv(s) && Possible(s, e) && Calm(s, e) && (SomeDone(s) ==> Stopping(s))
    ensures SomeDone(After(s, e)) ==> Stopping(After(s, e))
  {
    hide Inv, Fair, Finds, First, Queued, Settled, Dead, MayReset, Callbacks;
    if Stopping(s) {
      StoppingStays(s, e);
    } else {
      forall w | 0 <= w < |s.workers|
        ensures !s.workers[w].idleDone && !s.workers[w].phase.Left?
      {
      }
    }
  }

  lemma {:induction false} StaysDrained(s: Sys, es: seq<Event>)
    requires Inv(s) && (SomeDone(s) ==> Stopping(s)) && Legal(s, es) && CalmRun(s, es)
    ensures Inv(AfterAll(s, es)) && (SomeDone(AfterAll(s, es)) ==> Stopping(AfterAll(s, es)))
    decreases |es|
  {
    hide Inv, After, Possible, Fair, Calm, SomeDone;
    if es != [] {
      StepKeeps(s, es[0]);
      DoneMeansStopping(s, es[0]);
      StaysDrained(After(s, es[0]), es[1..]);
    }
  }

  /** In every run of a started scheduler: from the first worker that leaves on, nothing is
      queued, ready or running, and every callback is finished or belongs to a fiber that is
      parked or was never queued. So the queue is empty when all have left, whatever was
      pinned. */
  lemma ShutdownDrains(n: nat, caller: bool, es: seq<Event>)
    requires Legal(Initial(n, caller), es) && CalmRun(Initial(n, caller), es)
    ensures var t := AfterAll(Initial(n, caller), es);
            SomeDone(t) ==>
              && t.queue == [] && t.active == 0
              && (forall f :: 0 <= f < |t.fibers| ==> t.fibers[f].state != EXEC && t.fibers[f].state != READY)
              && forall c :: Live(t.fibers, c) + t.finished[c] == t.issued[c]
  {
    hide Inv, Legal, CalmRun, AfterAll, SomeDone, Live;
    NobodyIsDoneAtFirst(n, caller);
    StaysDrained(Initial(n, caller), es);
    var t := AfterAll(Initial(n, caller), es);
    if SomeDone(t) {
      StoppingMeansQuiet(t);
      NothingPending(t);
    }
  }

  lemma NothingPending(s: Sys)
    requires Inv(s) && s.queue == []
    ensures forall c :: Live(s.fibers, c) + s.finished[c] == s.issued[c]
  {
    hide Live, Counted, WorkersOk, AllApart, FibersOk;
    forall c
      ensures Live(s.fibers, c) + s.finished[c] == s.issued[c]
    {
      assert Traced(s, c) && Pending(s.queue, c) == 0;
    }
  }

  lemma NobodyIsDoneAtFirst(n: nat, caller: bool)
    ensures Inv(Initial(n, caller)) && !SomeDone(Initial(n, caller))
  {
    InitialInv(n, caller);
  }

  // ----- the object ---------------------------------------------------------------------------------------------

  /** Pinned to another thread. */
  predicate Elsewhere(x: Entry, w: nat) { x.thread != None && x.thread != Some(w) }

  class Scheduler {
    var queue: seq<Entry>
    var fibers: seq<Fiber>
    var workers: seq<Worker>
    var active: int
    var idle: int
    var autoStop: bool
    var stopping: bool
    var aborted: bool
    ghost var issued: multiset<Callback>
    ghost var finished: multiset<Callback>

    ghost function Now(): Sys
      reads this
    {
      Sys(queue, fibers, workers, active, idle, autoStop, stopping, aborted, issued, finished)
    }

    constructor (n: nat, caller: bool)
      ensures Now() == Initial(n, caller) && Inv(Now())
    {
      queue, fibers := [], [];
      workers := seq(n, i => Worker(Head, None, false)) + (if caller then [Worker(Waiting, None, false)] else []);
      active, idle, autoStop, stopping, aborted := 0, 0, false, false, false;
      issued, finished := multiset{}, multiset{};
      new;
      InitialInv(n, caller);
    }

    method Schedule(task: Option<Task>, thread: Option<nat>) returns (needTickle: bool)
      modifies this
      ensures Now() == Submitted(old(Now()), task, thread)
      ensures needTickle <==> old(queue) == []
    {
      needTickle := queue == [];
      if task.Some? {
        queue := queue + [Entry(task.value, thread)];
        if task.value.OfCallback? {
          issued := issued + multiset{task.value.c};
        }
      }
    }

    /** Submitting a whole batch: the caller's slots are emptied. */
    method ScheduleAll(slots: array<Option<Task>>) returns (needTickle: bool)
      modifies this, slots
      ensures Now() == SubmittedAll(old(Now()), old(slots[..]))
      ensures forall k :: 0 <= k < slots.Length ==> slots[k] == None
      ensures needTickle <==> old(queue) == [] && slots.Length > 0
    {
      needTickle := false;
      var i := 0;
      while i < slots.Length
        invariant 0 <= i <= slots.Length
        invariant forall k :: 0 <= k < i ==> slots[k] == None
        invariant forall k :: i <= k < slots.Length ==> slots[k] == old(slots[k])
        invariant SubmittedAll(Now(), old(slots[..])[i..]) == SubmittedAll(old(Now()), old(slots[..]))
        invariant i == 0 ==> queue == old(queue)
        invariant |queue| >= |old(queue)|
        invariant needTickle <==> i > 0 && old(queue) == []
      {
        ghost var rest := old(slots[..])[i..];
        assert rest[0] == slots[i] && rest[1..] == old(slots[..])[i + 1..];
        var empty := Schedule(slots[i], None);
        needTickle := empty || needTickle;
        slots[i] := None;
        i := i + 1;
      }
    }

    /** One pass through the head of the `run` loop by worker `w`. */
    method Turn(w: nat) returns (tickle: bool)
      requires At(Now(), w, Head)
      modifies this
      ensures Finds(old(Now()), w) ==> Now() == After(old(Now()), Take(w))
      ensures !Finds(old(Now()), w) ==>
                Now() == After(old(Now()), if old(workers[w].idleDone) then Leave(w) else Rest(w))
      ensures tickle <==> Finds(old(Now()), w) || exists j :: 0 <= j < |old(queue)| && Elsewhere(old(queue)[j], w)
    {
      tickle := false;
      var i := 0;
      while i < |queue| && !Eligible(queue, fibers, w, i)
        invariant 0 <= i <= |queue|
        invariant First(queue, fibers, w, 0) == First(queue, fibers, w, i)
        invariant tickle <==> exists j :: 0 <= j < i && Elsewhere(queue[j], w)
      {
        if Elsewhere(queue[i], w) {
          tickle := true;
        }
        i := i + 1;
      }
      if i < |queue| {
        tickle := true;
        TakeAt(w, i);
      } else if workers[w].idleDone {
        workers := workers[w := workers[w].(phase := Left, own := None, idleDone := true)];
      } else {
        workers := workers[w := workers[w].(phase := Idle, idleDone := false)];
        idle := idle + 1;
      }
    }

    method TakeAt(w: nat, i: nat)
      requires w < |workers| && i < |queue|
      modifies this
      ensures Now() == Taken(old(Now()), w, i)
    {
      var task := queue[i].task;
      queue := Without(queue, i);
      if task.OfFiber? {
        var f := task.f;
        if f >= |fibers| || fibers[f].state == EXEC {
          aborted := true;
        } else if !Dead(fibers[f]) {
          active := active + 1;
          fibers := fibers[f := fibers[f].(state := EXEC)];
          workers := workers[w := workers[w].(phase := Running(f, false))];
        }
        return;
      }
      var own := workers[w].own;
      if own.None? {
        workers := workers[w := workers[w].(phase := Running(|fibers|, true), own := Some(|fibers|))];
        fibers := fibers + [Fiber(EXEC, Some(task.c))];
        active := active + 1;
      } else if own.value >= |fibers| || !MayReset(fibers[own.value]) {
        aborted := true;
      } else {
        fibers := fibers[own.value := Fiber(EXEC, Some(task.c))];
        workers := workers[w := workers[w].(phase := Running(own.value, true))];
        active := active + 1;
      }
    }

    /** What the worker does when the fiber it switched to hands control back. */
    method SwitchBack(w: nat, how: How)
      requires Possible(Now(), Return(w, how))
      modifies this
      ensures Now() == After(old(Now()), Return(w, how))
    {
      hide Settled, Callbacks, First, Stopping, Submitted, Created, Moved, Taken;
      var f, own := workers[w].phase.f, workers[w].phase.own;
      active := active - 1;
      if how.Ends? || how.Throws? {
        finished := finished + Callbacks(fibers[f].cb);
      }
      fibers := fibers[f := Settled(fibers[f], own, how)];
      if how.Yields? {
        queue := queue + [Entry(OfFiber(f), None)];
      }
      if own && (how.Yields? || how.Parks?) {
        workers := workers[w := workers[w].(own := None)];
      }
      workers := workers[w := workers[w].(phase := Head)];
    }

    /** One turn of the idle fiber. */
    method IdleTurn(w: nat)
      requires At(Now(), w, Idle)
      modifies this
      ensures Now() == After(old(Now()), Check(w))
    {
      var done := autoStop && stopping && queue == [] && active == 0;
      workers := workers[w := workers[w].(phase := Head, idleDone := done)];
      idle := idle - 1;
    }

    method StopAll()
      modifies this
      ensures Now() == After(old(Now()), Stop)
      ensures Now() == old(Now()).(autoStop := true, stopping := true)
    {
      autoStop := true;
      stopping := true;
    }
  }

  function SubmittedAll(s: Sys, tasks: seq<Option<Task>>): Sys
    decreases |tasks|
  {
    if tasks == [] then s else SubmittedAll(Submitted(s, tasks[0], None), tasks[1..])
  }
}
