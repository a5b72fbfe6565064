/**
 What the clients owe the scheduler is exact: after a step that breaks it, some
 run in which everybody keeps the rules fails an assertion of the code, and
 after any other step none does.
*/
module SchedulerAborts {
  import opened Wrappers
  import opened Schedulers
  import opened SchedulerRuns

  /** A step that no callback ends in, and no worker finds the scheduler done in. */
  predicate Mild(s: Sys, e: Event)
  {
    match e
    case Return(w, how) => how.Parks? || (how.Throws? && w < |s.workers| && s.workers[w].phase.Running? && !s.workers[w].phase.own)
    case Begin(_) => s.queue != []
    case Check(_) => s.queue != []
    case _ => true
  }

  predicate AllMild(s: Sys, es: seq<Event>)
    requires Legal(s, es)
    decreases |es|
  {
    es == [] || (Mild(s, es[0]) && AllMild(After(s, es[0]), es[1..]))
  }

  /** A run of mild steps that keeps the rules and ends in a failed assertion. */
  predicate AbortsBy(s: Sys, es: seq<Event>)
  {
    Legal(s, es) && AllMild(s, es) && AfterAll(s, es).aborted
  }

  /** One step more in front of a run. */
  lemma StepFirst(s: Sys, e: Event, es: seq<Event>)
    requires Possible(s, e) && Fair(s, e) && Mild(s, e) && AbortsBy(After(s, e), es)
    ensures AbortsBy(s, [e] + es)
  {
    hide Possible, Fair, Mild, After;
    assert ([e] + es)[0] == e && ([e] + es)[1..] == es;
  }

  lemma AbortsNow(s: Sys, e: Event)
    requires Possible(s, e) && Fair(s, e) && Mild(s, e) && After(s, e).aborted
    ensures AbortsBy(s, [e])
  {
    hide Possible, Fair, Mild, After;
    assert [e][1..] == [];
    var t := After(s, e);
    assert Legal(t, []) && AllMild(t, []) && AfterAll(t, []) == t;
  }

  /** How a running fiber can give up control without ending, if it has a callback. */
  function GivesUp(s: Sys, w: nat): How
    requires Runs(s, w)
  {
    if s.fibers[s.workers[w].phase.f].cb.None? then Throws else Parks
  }

  // ----- the last phase: the owner meets its own fiber running elsewhere -----------------------

  /** Worker `w` is at the head and its callback fiber runs under another worker. */
  predicate Stolen(s: Sys, w: nat, f: nat)
  {
    At(s, w, Head) && s.workers[w].own == Some(f) && f < |s.fibers| && s.fibers[f].state == EXEC
  }

  /** With nothing to find, a new callback is taken next. */
  lemma CallbackAborts(s: Sys, w: nat, f: nat)
    requires Stolen(s, w, f) && !Finds(s, w)
    ensures var e := Submit(Some(OfCallback(0)), None, None);
            && Possible(s, e) && Fair(s, e)
            && Possible(After(s, e), Take(w)) && Fair(After(s, e), Take(w)) && After(After(s, e), Take(w)).aborted
  {
    hide First;
    SameFirst(s, After(s, Submit(Some(OfCallback(0)), None, None)), w);
  }

  /** Taking an entry fails the assertion or leaves fewer of them. */
  lemma StolenTake(s: Sys, w: nat, f: nat)
    requires Stolen(s, w, f) && Finds(s, w)
    ensures Possible(s, Take(w)) && Fair(s, Take(w))
    ensures var t := After(s, Take(w));
            || t.aborted
            || (|t.queue| < |s.queue| && f < |t.fibers| && t.fibers[f].state == EXEC
                && w < |t.workers| && t.workers[w].own == Some(f)
                && (At(t, w, Head) || (Runs(t, w) && t.workers[w].phase.f != f && !t.workers[w].phase.own)))
  {
    hide First;
  }

  lemma StolenReturn(t: Sys, w: nat, f: nat)
    requires Runs(t, w) && t.workers[w].phase.f != f && !t.workers[w].phase.own
    requires f < |t.fibers| && t.fibers[f].state == EXEC && t.workers[w].own == Some(f)
    ensures var e := Return(w, GivesUp(t, w));
            Possible(t, e) && Fair(t, e) && Mild(t, e) && Stolen(After(t, e), w, f) && After(t, e).queue == t.queue
  {
  }

  /** Whatever is queued, worker `w` works it off until it takes a callback; then `reset`
      meets the running fiber. */
  lemma {:induction false} StolenAborts(s: Sys, w: nat, f: nat) returns (es: seq<Event>)
    requires Stolen(s, w, f)
    ensures AbortsBy(s, es)
    decreases |s.queue|
  {
    hide AbortsBy, After, Possible, Fair, Finds;
    if !Finds(s, w) {
      CallbackAborts(s, w, f);
      var e := Submit(Some(OfCallback(0)), None, None);
      AbortsNow(After(s, e), Take(w));
      StepFirst(s, e, [Take(w)]);
      es := [e] + [Take(w)];
    } else {
      StolenTake(s, w, f);
      var t := After(s, Take(w));
      if t.aborted {
        AbortsNow(s, Take(w));
        es := [Take(w)];
      } else if At(t, w, Head) {
        es := StolenAborts(t, w, f);
        StepFirst(s, Take(w), es);
        es := [Take(w)] + es;
      } else {
        StolenReturn(t, w, f);
        var e := Return(w, GivesUp(t, w));
        es := StolenAborts(After(t, e), w, f);
        StepFirst(t, e, es);
        StepFirst(s, Take(w), [e] + es);
        es := [Take(w)] + ([e] + es);
      }
    }
  }

  /** A submitted callback is what an idle scan finds. */
  lemma SameFirst(s: Sys, t: Sys, w: nat)
    requires !Finds(s, w) && t.fibers == s.fibers && t.queue == s.queue + [Entry(OfCallback(0), None)]
    ensures First(t.queue, t.fibers, w, 0) == |s.queue|
  {
    assert Eligible(t.queue, t.fibers, w, |s.queue|);
    assert forall j :: 0 <= j < |s.queue| ==> Eligible(s.queue, s.fibers, w, j) == Eligible(t.queue, t.fibers, w, j);
  }

  // ----- before that: another worker takes the resting fiber ---------------------------------------

  predicate Working(s: Sys, w: nat)
  {
    && w < |s.workers|
    && match s.workers[w].phase
       case Running(g, own) =>
         && g < |s.fibers| && s.fibers[g].state == EXEC
         && (own ==> s.workers[w].own == Some(g) && s.fibers[g].cb.Some?)
       case Left => false
       case _ => true
  }

  predicate Waits(s: Sys, f: nat, v: nat)
  {
    exists i :: 0 <= i < |s.queue| && s.queue[i].task == OfFiber(f) && Reaches(s, s.queue[i], v)
  }

  /** The resting callback fiber of worker `w` is queued where worker `v` can take it. */
  predicate Exposed(s: Sys, w: nat, v: nat, f: nat)
  {
    && !s.aborted && Working(s, w) && Working(s, v) && v != w
    && (Holding(s.workers[w]) && Holding(s.workers[v]) ==> s.workers[w].phase.f != s.workers[v].phase.f)
    && Resting(s, w, f) && s.workers[v].own != Some(f) && Waits(s, f, v)
  }

  /** Taking another entry leaves this one in the queue. */
  lemma StillQueued(s: Sys, t: Sys, i: nat, k: nat)
    requires i < |s.queue| && k < |s.queue| && s.queue[i] != s.queue[k] && t.queue == Without(s.queue, i)
    ensures |t.queue| < |s.queue| && exists j :: 0 <= j < |t.queue| && t.queue[j] == s.queue[k]
  {
    assert t.queue[if k < i then k else k - 1] == s.queue[k];
  }

  /** Worker `v` fails an assertion, gets the fiber, or works off another entry. */
  lemma TakeStep(s: Sys, w: nat, v: nat, f: nat)
    requires Exposed(s, w, v, f) && At(s, w, Head) && At(s, v, Head)
    ensures Possible(s, Take(v))
    ensures var t := After(s, Take(v));
            || t.aborted || Stolen(t, w, f)
            || (Exposed(t, w, v, f) && At(t, w, Head) && |t.queue| < |s.queue|
                && (At(t, v, Head) || t.workers[v].phase.Running?))
  {
    var k :| 0 <= k < |s.queue| && s.queue[k].task == OfFiber(f) && Reaches(s, s.queue[k], v);
    assert Eligible(s.queue, s.fibers, v, k);
    var i := First(s.queue, s.fibers, v, 0);
    assert After(s, Take(v)) == Taken(s, v, i);
    if s.queue[i].task != OfFiber(f) {
      TakeOther(s, w, v, f, i, k);
    }
  }

  lemma TakeOther(s: Sys, w: nat, v: nat, f: nat, i: nat, k: nat)
    requires Exposed(s, w, v, f) && At(s, w, Head) && At(s, v, Head) && i < |s.queue| && s.queue[i].task != OfFiber(f)
    requires k < |s.queue| && s.queue[k].task == OfFiber(f) && Reaches(s, s.queue[k], v)
    ensures var t := Taken(s, v, i);
            t.aborted || (Exposed(t, w, v, f) && At(t, w, Head) && |t.queue| < |s.queue|
                          && (At(t, v, Head) || t.workers[v].phase.Running?))
  {
    hide Waits, Without;
    var t := Taken(s, v, i);
    if !t.aborted {
      StillQueued(s, t, i, k);
      var j :| 0 <= j < |t.queue| && t.queue[j] == s.queue[k];
      StillWaits(t, f, v, j);
      StillRests(s, w, v, f, i);
    }
  }

  /** Taking another task leaves the owner's resting fiber alone. */
  lemma StillRests(s: Sys, w: nat, v: nat, f: nat, i: nat)
    requires Resting(s, w, f) && v < |s.workers| && v != w && s.workers[v].own != Some(f)
    requires i < |s.queue| && s.queue[i].task != OfFiber(f)
    ensures Resting(Taken(s, v, i), w, f)
  {
    hide Without;
  }

  lemma StillWaits(s: Sys, f: nat, v: nat, j: nat)
    requires j < |s.queue| && s.queue[j].task == OfFiber(f) && Reaches(s, s.queue[j], v)
    ensures Waits(s, f, v)
  {
  }

  /** Only worker `u` changed, to the head, and at most the fiber it ran. */
  lemma HeadExposes(s: Sys, t: Sys, w: nat, v: nat, f: nat, u: nat)
    requires Exposed(s, w, v, f) && (u == w || u == v) && |t.workers| == |s.workers| && |t.fibers| == |s.fibers|
    requires !t.aborted && t.queue == s.queue && At(t, u, Head)
    requires t.workers[u].own == s.workers[u].own || (t.workers[u].own == None && u == v)
    requires forall x :: 0 <= x < |s.workers| && x != u ==> t.workers[x] == s.workers[x]
    requires forall g :: 0 <= g < |s.fibers| && !(Holding(s.workers[u]) && s.workers[u].phase.f == g) ==> t.fibers[g] == s.fibers[g]
    ensures Exposed(t, w, v, f)
  {
    hide Waits;
    var k := WaitsAt(s, f, v);
    StillWaits(t, f, v, k);
  }

  lemma WaitsAt(s: Sys, f: nat, v: nat) returns (k: nat)
    requires Waits(s, f, v)
    ensures k < |s.queue| && s.queue[k].task == OfFiber(f) && Reaches(s, s.queue[k], v)
  {
    k :| 0 <= k < |s.queue| && s.queue[k].task == OfFiber(f) && Reaches(s, s.queue[k], v);
  }

  /** Only worker `u` moved, to the head of its loop. */
  predicate Came(s: Sys, t: Sys, u: nat)
  {
    && At(t, u, Head) && t.queue == s.queue && t.autoStop == s.autoStop && t.stopping == s.stopping
    && |t.workers| == |s.workers| && forall x :: 0 <= x < |s.workers| && x != u ==> t.workers[x] == s.workers[x]
  }

  /** A worker that has not left comes to the head of its loop while something is queued. */
  lemma ComesToHead(s: Sys, w: nat, v: nat, f: nat, u: nat) returns (e: Event, t: Sys)
    requires Exposed(s, w, v, f) && (u == w || u == v) && !At(s, u, Head)
    requires s.workers[u].phase.Waiting? ==> s.autoStop && s.stopping
    ensures Possible(s, e) && Fair(s, e) && Mild(s, e) && t == After(s, e) && Came(s, t, u) && Exposed(t, w, v, f)
  {
    hide Exposed, After, Possible, Fair;
    HasNotLeft(s, w, v, f, u);
    if Holding(s.workers[u]) {
      ReturnExposes(s, w, v, f, u);
      e := Return(u, GivesUp(s, u));
    } else if s.workers[u].phase.Idle? {
      CheckExposes(s, w, v, f, u);
      e := Check(u);
    } else {
      BeginExposes(s, w, v, f, u);
      e := Begin(u);
    }
    t := After(s, e);
  }

  lemma HasNotLeft(s: Sys, w: nat, v: nat, f: nat, u: nat)
    requires Exposed(s, w, v, f) && (u == w || u == v)
    ensures u < |s.workers| && !s.workers[u].phase.Left?
  {
  }

  lemma ReturnExposes(s: Sys, w: nat, v: nat, f: nat, u: nat)
    requires Exposed(s, w, v, f) && (u == w || u == v) && Holding(s.workers[u])
    ensures Runs(s, u)
    ensures var e := Return(u, GivesUp(s, u));
            Possible(s, e) && Fair(s, e) && Mild(s, e) && Came(s, After(s, e), u) && Exposed(After(s, e), w, v, f)
  {
    hide Waits, Resting;
    NotTheOwners(s, w, v, f, u);
    HeadExposes(s, After(s, Return(u, GivesUp(s, u))), w, v, f, u);
  }

  lemma CheckExposes(s: Sys, w: nat, v: nat, f: nat, u: nat)
    requires Exposed(s, w, v, f) && (u == w || u == v) && At(s, u, Idle)
    ensures Possible(s, Check(u)) && Fair(s, Check(u)) && Mild(s, Check(u)) && Came(s, After(s, Check(u)), u) && Exposed(After(s, Check(u)), w, v, f)
  {
    hide Waits, Resting;
    var k := WaitsAt(s, f, v);
    HeadExposes(s, After(s, Check(u)), w, v, f, u);
  }

  lemma BeginExposes(s: Sys, w: nat, v: nat, f: nat, u: nat)
    requires Exposed(s, w, v, f) && (u == w || u == v) && At(s, u, Waiting) && s.autoStop && s.stopping
    ensures Possible(s, Begin(u)) && Fair(s, Begin(u)) && Mild(s, Begin(u)) && Came(s, After(s, Begin(u)), u) && Exposed(After(s, Begin(u)), w, v, f)
  {
    hide Waits, Resting;
    var k := WaitsAt(s, f, v);
    HeadExposes(s, After(s, Begin(u)), w, v, f, u);
  }

  /** The owner does not run its resting fiber. */
  lemma NotTheOwners(s: Sys, w: nat, v: nat, f: nat, u: nat)
    requires Exposed(s, w, v, f) && (u == w || u == v) && Holding(s.workers[u])
    ensures u == w ==> !s.workers[u].phase.own
  {
  }

  /** Worker `v`, at the head, works the queue off until it takes the fiber. */
  lemma {:induction false} ExposedIsTaken(s: Sys, w: nat, v: nat, f: nat) returns (es: seq<Event>)
    requires Exposed(s, w, v, f) && At(s, w, Head) && At(s, v, Head)
    ensures AbortsBy(s, es)
    decreases |s.queue|
  {
    hide AbortsBy, Exposed, Stolen, After, Possible;
    assert w != v by { Distinct(s, w, v, f); }
    TakeStep(s, w, v, f);
    var t := After(s, Take(v));
    if t.aborted {
      AbortsNow(s, Take(v));
      es := [Take(v)];
    } else if Stolen(t, w, f) {
      es := StolenAborts(t, w, f);
      StepFirst(s, Take(v), es);
      es := [Take(v)] + es;
    } else if At(t, v, Head) {
      es := ExposedIsTaken(t, w, v, f);
      StepFirst(s, Take(v), es);
      es := [Take(v)] + es;
    } else {
      var e, u := ComesToHead(t, w, v, f, v);
      es := ExposedIsTaken(u, w, v, f);
      StepFirst(t, e, es);
      StepFirst(s, Take(v), [e] + es);
      es := [Take(v)] + ([e] + es);
    }
  }

  lemma Distinct(s: Sys, w: nat, v: nat, f: nat)
    requires Exposed(s, w, v, f)
    ensures w != v
  {
  }

  /** An exposed callback fiber leads to a failed assertion. */
  lemma ExposedAborts(s: Sys, w: nat, v: nat, f: nat) returns (es: seq<Event>)
    requires Exposed(s, w, v, f)
    ensures AbortsBy(s, es)
  {
    hide AbortsBy, Exposed, After, Possible, Fair;
    var t := s.(autoStop := true, stopping := true);
    StopExposes(s, w, v, f);
    if At(t, w, Head) {
      es := BothCome(t, w, v, f);
    } else {
      var e, u := ComesToHead(t, w, v, f, w);
      es := BothCome(u, w, v, f);
      StepFirst(t, e, es);
      es := [e] + es;
    }
    StepFirst(s, Stop, es);
    es := [Stop] + es;
  }

  lemma StopExposes(s: Sys, w: nat, v: nat, f: nat)
    requires Exposed(s, w, v, f)
    ensures Possible(s, Stop) && Fair(s, Stop) && After(s, Stop) == s.(autoStop := true, stopping := true)
    ensures Exposed(s.(autoStop := true, stopping := true), w, v, f)
  {
    var t := s.(autoStop := true, stopping := true);
    var k :| 0 <= k < |s.queue| && s.queue[k].task == OfFiber(f) && Reaches(s, s.queue[k], v);
    assert Reaches(t, t.queue[k], v);
  }

  lemma BothCome(s: Sys, w: nat, v: nat, f: nat) returns (es: seq<Event>)
    requires Exposed(s, w, v, f) && At(s, w, Head) && s.autoStop && s.stopping
    ensures AbortsBy(s, es)
  {
    hide AbortsBy, Exposed, After, Possible, Fair;
    Distinct(s, w, v, f);
    if At(s, v, Head) {
      es := ExposedIsTaken(s, w, v, f);
    } else {
      var e, t := ComesToHead(s, w, v, f, v);
      es := ExposedIsTaken(t, w, v, f);
      StepFirst(s, e, es);
      es := [e] + es;
    }
  }

  // ----- the exact statement -----------------------------------------------------------------------------

  /** Two workers of a sound state, one of which owns a fiber that now rests and waits for the
      other, make it exposed. */
  lemma ExposedBy(s: Sys, t: Sys, w: nat, v: nat, f: nat)
    requires Inv(s) && v < |s.workers| && w < |s.workers| && v != w && s.workers[w].own == Some(f)
    requires !s.workers[v].phase.Left? && !t.aborted && Resting(t, w, f) && Waits(t, f, v)
    requires |t.workers| == |s.workers| && t.workers[v] == s.workers[v]
    requires t.workers[w] == s.workers[w] || At(t, w, Head)
    requires |t.fibers| == |s.fibers| && forall g :: 0 <= g < |s.fibers| && g != f ==> t.fibers[g] == s.fibers[g]
    requires s.fibers[f] == t.fibers[f] || At(t, w, Head)
    ensures Exposed(t, w, v, f)
  {
    hide Counted, Conserved, FibersOk, QueueOk, Waits, AllApart;
    WorkerWas(s, w);
    WorkerWas(s, v);
    NotShared(s, w, v, f);
    if Holding(s.workers[w]) && Holding(s.workers[v]) {
      OneRunner(s, w, v);
    }
  }

  /** A step that breaks the rules leaves a resting callback fiber exposed. */
  lemma UnfairExposes(s: Sys, e: Event) returns (w: nat, v: nat, f: nat)
    requires Inv(s) && Possible(s, e) && !Fair(s, e)
    ensures Exposed(After(s, e), w, v, f)
  {
    hide Inv, Waits, Exposed;
    assert !s.aborted by { NotAborted(s); }
    var t := After(s, e);
    match e
    case Submit(task, thread, _) =>
      f := task.value.f;
      var x := Entry(task.value, thread);
      w :| 0 <= w < |s.workers| && Resting(s, w, f) && !Private(s, x, w);
      v :| 0 <= v < |s.workers| && v != w && Reaches(s, x, v);
      StillWaits(t, f, v, |s.queue|);
      ExposedBy(s, t, w, v, f);
    case Return(_, how) =>
      w := e.w;
      f := s.workers[w].phase.f;
      var i :| 0 <= i < |s.queue| && s.queue[i].task == OfFiber(f) && !Private(s, s.queue[i], w);
      v :| 0 <= v < |s.workers| && v != w && Reaches(s, s.queue[i], v);
      OwnRun(s, w);
      StillWaits(t, f, v, i);
      ExposedBy(s, t, w, v, f);
  }

  lemma OwnRun(s: Sys, w: nat)
    requires Inv(s) && Runs(s, w) && s.workers[w].phase.own
    ensures s.workers[w].own == Some(s.workers[w].phase.f)
  {
    WorkerWas(s, w);
  }

  lemma OneRunner(s: Sys, w: nat, v: nat)
    requires AllApart(s.workers) && w < |s.workers| && v < |s.workers| && v != w && Holding(s.workers[w]) && Holding(s.workers[v])
    ensures s.workers[w].phase.f != s.workers[v].phase.f
  {
    NotShared(s, w, v, s.workers[w].phase.f);
  }

  /** The rules are exact: from a sound state, a possible step keeps them if and only if no run
      that keeps them afterwards fails an assertion of the code. In particular a callback
      fiber at rest may be queued for its own worker, or for a thread that is no worker or
      has left. */
  lemma FairIsExact(s: Sys, e: Event)
    requires Inv(s) && Possible(s, e)
    ensures Fair(s, e) <==> forall es :: Legal(After(s, e), es) ==> !AfterAll(After(s, e), es).aborted
  {
    hide Inv, Possible, Fair, After, Legal, AfterAll, Exposed;
    var t := After(s, e);
    if Fair(s, e) {
      StepKeeps(s, e);
      forall es | Legal(t, es)
        ensures !AfterAll(t, es).aborted
      {
        EveryRunIsSafe(t, es);
        NotAborted(AfterAll(t, es));
      }
    } else {
      var w, v, f := UnfairExposes(s, e);
      var es := ExposedAborts(t, w, v, f);
      assert Legal(t, es) && AfterAll(t, es).aborted;
    }
  }

  lemma NotAborted(s: Sys)
    requires Inv(s)
    ensures !s.aborted
  {
  }

  /** And the rules can be broken: a run from the start in which a callback is about to end
      while its fiber is queued for everybody. */
  lemma RulesCanBeBroken() returns (es: seq<Event>)
    ensures Legal(Initial(2, false), es)
    ensures var s := AfterAll(Initial(2, false), es); Possible(s, Return(0, Ends)) && !Fair(s, Return(0, Ends))
  {
    var a := Initial(2, false);
    var e1, e2, e3 := Submit(Some(OfCallback(7)), None, None), Take(0), Submit(Some(OfFiber(0)), None, Some(0));
    var b := After(a, e1);
    assert Eligible(b.queue, b.fibers, 0, 0);
    var c := After(b, e2);
    assert c.fibers == [Fiber(EXEC, Some(7))] && c.queue == [];
    assert c.workers == [Worker(Running(0, true), Some(0), false), Worker(Head, None, false)];
    es := [e1] + ([e2] + [e3]);
    QueuesItself(c);
    hide Possible, After, Fair;
    RunOn(b, e2, [e3]);
    RunOn(a, e1, [e2] + [e3]);
  }

  lemma QueuesItself(c: Sys)
    requires c.fibers == [Fiber(EXEC, Some(7))] && c.queue == []
    requires c.workers == [Worker(Running(0, true), Some(0), false), Worker(Head, None, false)]
    ensures var e := Submit(Some(OfFiber(0)), None, Some(0));
            && Legal(c, [e])
            && Possible(AfterAll(c, [e]), Return(0, Ends)) && !Fair(AfterAll(c, [e]), Return(0, Ends))
  {
    var e := Submit(Some(OfFiber(0)), None, Some(0));
    var s := After(c, e);
    assert [e][1..] == [];
    assert s.queue == [Entry(OfFiber(0), None)];
    assert Legal(s, []) && AfterAll(s, []) == s;
    assert Reaches(s, s.queue[0], 1);
  }

  lemma RunOn(s: Sys, e: Event, es: seq<Event>)
    requires Possible(s, e) && Fair(s, e) && Legal(After(s, e), es)
    ensures Legal(s, [e] + es) && AfterAll(s, [e] + es) == AfterAll(After(s, e), es)
  {
    hide Possible, Fair, After;
    assert ([e] + es)[0] == e && ([e] + es)[1..] == es;
  }
}
