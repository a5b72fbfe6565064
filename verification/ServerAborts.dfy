/**
 What the clients owe the server is exact: after an act that breaks it, some run
 in which everybody keeps the rules fails an assertion of the code, and after
 any other act none does.
*/
module ServerAborts {
  import opened Wrappers
  import opened Schedulers
  import opened IoManagers
  import opened Servers
  import SchedulerAborts
  import SchedulerRuns
  import IoRuns

  /** A run in which everybody keeps the rules, outside threads included. */
  ghost predicate Played(j: Server, acts: seq<Act>)
    decreases |acts|
  {
    acts == [] || (Servers.Possible(j, acts[0]) && Servers.Fair(j, acts[0]) && Played(Servers.After(j, acts[0]), acts[1..]))
  }

  ghost function Outcome(j: Server, acts: seq<Act>): Server
    requires Played(j, acts)
    decreases |acts|
  {
    if acts == [] then j else Outcome(Servers.After(j, acts[0]), acts[1..])
  }

  ghost predicate CanAbort(j: Server)
  {
    exists acts :: Played(j, acts) && Outcome(j, acts).tasks.aborted
  }

  lemma {:induction false} SoundForever(j: Server, acts: seq<Act>)
    requires Sound(j) && Played(j, acts)
    ensures Sound(Outcome(j, acts))
    decreases |acts|
  {
    hide Sound, Servers.Possible, Servers.Fair, Servers.After;
    if acts != [] {
      ActKeeps(j, acts[0]);
      SoundForever(Servers.After(j, acts[0]), acts[1..]);
    }
  }

  lemma ActFirst(j: Server, a: Act)
    requires Servers.Possible(j, a) && Servers.Fair(j, a) && CanAbort(Servers.After(j, a))
    ensures CanAbort(j)
  {
    hide Servers.Possible, Servers.Fair, Servers.After;
    var t := Servers.After(j, a);
    var acts :| Played(t, acts) && Outcome(t, acts).tasks.aborted;
    var all := [a] + acts;
    assert all[0] == a && all[1..] == acts;
    assert Played(j, all) && Outcome(j, all) == Outcome(t, acts);
  }

  lemma AbortedCan(j: Server)
    requires j.tasks.aborted
    ensures CanAbort(j)
  {
    assert Played(j, []) && Outcome(j, []) == j;
  }

  /** The server's act for a step of the scheduler. */
  function ActOf(e: Event): Act
  {
    match e
    case Begin(w) => Join(w)
    case Check(w) => Act.Check(w)
    case _ => Step(e)
  }

  /** A mild step is an act of the server: with something queued, no `stopping` is true. */
  lemma MildIsAct(j: Server, e: Event)
    requires Schedulers.Possible(j.tasks, e) && Schedulers.Fair(j.tasks, e) && SchedulerAborts.Mild(j.tasks, e)
    ensures Servers.Possible(j, ActOf(e)) && Servers.Fair(j, ActOf(e))
    ensures Servers.After(j, ActOf(e)).tasks == Schedulers.After(j.tasks, e)
  {
    hide Timers.Idle, WaitsFor, Submitted, Created, Taken, Returned, Finds, Queued, Private;
  }

  /** What the scheduler can do by mild steps, the server can. */
  lemma {:induction false} Lifted(j: Server, es: seq<Event>)
    requires SchedulerAborts.AbortsBy(j.tasks, es)
    ensures CanAbort(j)
    decreases |es|
  {
    hide CanAbort, Schedulers.Possible, Schedulers.Fair, Schedulers.After, SchedulerAborts.Mild, Servers.Possible, Servers.Fair, Servers.After;
    if es == [] {
      AbortedCan(j);
    } else {
      MildIsAct(j, es[0]);
      Lifted(Servers.After(j, ActOf(es[0])), es[1..]);
      ActFirst(j, ActOf(es[0]));
    }
  }

  /** A callback fiber at rest that waits for an event where another worker has not left: once
      the wait is cancelled, it is exposed. */
  lemma CancelExposes(j: Server, a: Act, f: nat) returns (c: Act, w: nat, v: nat)
    requires Sound(j) && Servers.Possible(j, a) && a.Step? && EndsOwn(j.tasks, a.e, f)
    requires WaitsFor(j.io, OfFiber(f)) && !Private(j.tasks, Entry(OfFiber(f), None), a.e.w)
    ensures var u := Servers.After(j, a);
            Servers.Possible(u, c) && Servers.Fair(u, c)
            && SchedulerAborts.Exposed(Servers.After(u, c).tasks, w, v, f)
  {
    hide Inv, IoInv, Waiter, CancelIn, SchedulerAborts.Exposed, SchedulerAborts.Waits;
    w := a.e.w;
    v :| 0 <= v < |j.tasks.workers| && v != w && Reaches(j.tasks, Entry(OfFiber(f), None), v);
    var fd: nat, d: Dir :| Waiter(j.io, fd, d) == Some(OfFiber(f));
    var u := Servers.After(j, a);
    c := Use(IoRuns.Cancel(fd, d), false, None);
    IoRuns.SizeOk(j.io);
    CancelEffect(j.io, fd, d, false);
    var io := CancelIn(j.io, fd, d, false).0;
    assert io.handed[|j.io.handed|..] == [OfFiber(f)];
    OneHanded(u.tasks, OfFiber(f));
    var t := Servers.After(u, c).tasks;
    assert t == Submitted(u.tasks, Some(OfFiber(f)), None);
    SchedulerAborts.OwnRun(j.tasks, w);
    SchedulerAborts.NotAborted(j.tasks);
    SchedulerAborts.StillWaits(t, f, v, |u.tasks.queue|);
    SchedulerAborts.ExposedBy(j.tasks, t, w, v, f);
  }

  lemma OneHanded(s: Sys, t: Task)
    ensures Handed(s, [t]) == Submitted(s, Some(t), None)
  {
    assert [t][1..] == [];
    assert Handed(Submitted(s, Some(t), None), []) == Submitted(s, Some(t), None);
  }

  /** An act that breaks the rules leads to a failed assertion. */
  lemma UnfairCanAbort(j: Server, a: Act)
    requires Sound(j) && Servers.Possible(j, a) && !Servers.Fair(j, a)
    ensures CanAbort(Servers.After(j, a))
  {
    hide Inv, IoInv, CanAbort, WaitsFor, Private, SchedulerAborts.Exposed, Schedulers.Possible, Schedulers.Fair, Schedulers.After;
    var u := Servers.After(j, a);
    if !Schedulers.Fair(j.tasks, a.e) {
      var w, v, f := SchedulerAborts.UnfairExposes(j.tasks, a.e);
      var es := SchedulerAborts.ExposedAborts(u.tasks, w, v, f);
      Lifted(u, es);
    } else {
      var f: nat :| EndsOwn(j.tasks, a.e, f) && WaitsFor(j.io, OfFiber(f)) && !Private(j.tasks, Entry(OfFiber(f), None), a.e.w);
      var c, w, v := CancelExposes(j, a, f);
      var t := Servers.After(u, c);
      var es := SchedulerAborts.ExposedAborts(t.tasks, w, v, f);
      Lifted(t, es);
      ActFirst(u, c);
    }
  }

  /** The rules are exact: from a sound state, a possible act keeps them if and only if no run
      that keeps them afterwards fails an assertion of the code. In particular a callback may
      end while its fiber waits for an event once all other workers have left. */
  lemma ServerFairIsExact(j: Server, a: Act)
    requires Sound(j) && Servers.Possible(j, a)
    ensures Servers.Fair(j, a) <==> !CanAbort(Servers.After(j, a))
  {
    hide Inv, IoInv, Servers.Possible, Servers.Fair, Servers.After, Played, Outcome, WaitsFor;
    var u := Servers.After(j, a);
    if Servers.Fair(j, a) {
      ActKeeps(j, a);
      forall acts | Played(u, acts)
        ensures !Outcome(u, acts).tasks.aborted
      {
        SoundForever(u, acts);
        SchedulerAborts.NotAborted(Outcome(u, acts).tasks);
      }
    } else {
      UnfairCanAbort(j, a);
    }
  }
}
