/**
 Whole runs of the I/O manager, the object that performs the operations, and the
 decision to stop.
*/
module IoRuns {
  import opened Wrappers
  import opened Schedulers
  import opened IoManagers
  import SchedulerRuns
  import Timers

  datatype Call =
    | Add(fd: nat, d: Dir, cb: Option<Callback>, self: nat)
    | Del(fd: nat, d: Dir)
    | Cancel(fd: nat, d: Dir)
    | CancelAll(fd: nat)
    | Dispatch(fd: nat, report: set<Flag>)

  /** Callers add only free directions, and the kernel reports descriptors it was told
      about, with directions that are registered or none that is. */
  predicate Fit(io: Io, c: Call)
  {
    match c
    case Add(fd, d, _, _) => Waiter(io, fd, d).None?
    case Dispatch(fd, report) =>
      && fd < |io.contexts|
      && (Real(report) <= io.contexts[fd].events || Real(report) * io.contexts[fd].events == {})
    case _ => true
  }

  function After(io: Io, c: Call, fails: bool): Io
    requires |io.contexts| >= 2 && Fit(io, c)
  {
    match c
    case Add(fd, d, cb, self) => AddIn(io, fd, d, cb, self, fails).0
    case Del(fd, d) => DelIn(io, fd, d, fails).0
    case Cancel(fd, d) => CancelIn(io, fd, d, fails).0
    case CancelAll(fd) => CancelAllIn(io, fd, fails).0
    case Dispatch(fd, report) => DispatchIn(io, fd, report, fails)
  }

  lemma CallKeeps(io: Io, c: Call, fails: bool)
    requires IoInv(io) && Fit(io, c)
    ensures IoInv(After(io, c, fails))
  {
    hide IoInv, AddIn, DelIn, CancelIn, CancelAllIn, DispatchIn, Real;
    assert |io.contexts| >= 2 by { SizeOk(io); }
    match c
    case Add(fd, d, cb, self) => AddEffect(io, fd, d, cb, self, fails);
    case Del(fd, d) => DelEffect(io, fd, d, fails);
    case Cancel(fd, d) => CancelEffect(io, fd, d, fails);
    case CancelAll(fd) => CancelAllEffect(io, fd, fails);
    case Dispatch(fd, report) =>
      assert Real(report) * io.contexts[fd].events == io.contexts[fd].events * Real(report);
      DispatchEffect(io, fd, report, fails);
  }

  lemma SizeOk(io: Io)
    requires IoInv(io)
    ensures |io.contexts| >= 2
  {
  }

  ghost predicate Legal(io: Io, cs: seq<(Call, bool)>)
    decreases |cs|
  {
    cs == [] || (|io.contexts| >= 2 && Fit(io, cs[0].0) && Legal(After(io, cs[0].0, cs[0].1), cs[1..]))
  }

  ghost function AfterAll(io: Io, cs: seq<(Call, bool)>): Io
    requires Legal(io, cs)
    decreases |cs|
  {
    if cs == [] then io else AfterAll(After(io, cs[0].0, cs[0].1), cs[1..])
  }

  /** In every run, with `epoll_ctl` failing at will, the kernel's interest set equals the
      recorded events, the pending counter is exact, and every waiter is accounted for. */
  lemma {:induction false} EveryRunIsSafe(io: Io, cs: seq<(Call, bool)>)
    requires IoInv(io) && Legal(io, cs)
    ensures IoInv(AfterAll(io, cs))
    decreases |cs|
  {
    hide IoInv, After, Fit;
    if cs != [] {
      SizeOk(io);
      CallKeeps(io, cs[0].0, cs[0].1);
      EveryRunIsSafe(After(io, cs[0].0, cs[0].1), cs[1..]);
    }
  }

  /** A waiter added once is, at any time, in exactly one of three places: still waiting,
      handed to the scheduler once, or deleted. */
  lemma OneEnd(io: Io, t: Task)
    requires IoInv(io) && io.added[t] == 1
    ensures (Awaiting(io.contexts, t), multiset(io.handed)[t], io.deleted[t]) in {(1, 0, 0), (0, 1, 0), (0, 0, 1)}
    ensures Awaiting(io.contexts, t) > 0 <==> exists fd: nat, d: Dir :: Waiter(io, fd, d) == Some(t)
  {
    hide Bits, Awaiting, KernelOk;
    assert Awaiting(io.contexts, t) + multiset(io.handed)[t] + io.deleted[t] == io.added[t];
    if Awaiting(io.contexts, t) > 0 {
      var fd, d := FindWaiter(io.contexts, t);
      assert Waiter(io, fd, d) == Some(t);
    }
    if fd: nat, d: Dir :| Waiter(io, fd, d) == Some(t) {
      WaiterCounts(io.contexts, fd, d);
    }
  }

  lemma {:induction false} FindWaiter(cs: seq<Context>, t: Task) returns (fd: nat, d: Dir)
    requires Awaiting(cs, t) > 0
    ensures fd < |cs| && d in cs[fd].events && TaskOf(SlotOf(cs[fd], d)) == t
  {
    if In(cs[0], READ, t) == 1 {
      fd, d := 0, READ;
    } else if In(cs[0], WRITE, t) == 1 {
      fd, d := 0, WRITE;
    } else {
      fd, d := FindWaiter(cs[1..], t);
      fd := fd + 1;
    }
  }

  lemma {:induction false} WaiterCounts(cs: seq<Context>, fd: nat, d: Dir)
    requires fd < |cs| && d in cs[fd].events
    ensures Awaiting(cs, TaskOf(SlotOf(cs[fd], d))) > 0 && Bits(cs) > 0
  {
    if fd > 0 {
      WaiterCounts(cs[1..], fd - 1, d);
    } else {
      assert d == READ || d == WRITE;
    }
  }

  lemma {:induction false} NoBits(cs: seq<Context>)
    ensures Bits(cs) == 0 <==> forall fd :: 0 <= fd < |cs| ==> cs[fd].events == {}
  {
    if cs != [] {
      NoBits(cs[1..]);
      NonEmpty(cs[0].events);
      assert forall fd :: 1 <= fd < |cs| ==> cs[fd] == cs[1..][fd - 1];
      assert forall fd :: 0 <= fd < |cs[1..]| ==> cs[1..][fd] == cs[fd + 1];
    }
  }

  ghost predicate NobodyWaits(io: Io)
  {
    forall fd: nat, d: Dir :: Waiter(io, fd, d).None?
  }

  /** The pending counter is zero exactly when nobody waits, and then the kernel
      watches nothing. */
  lemma PendingIsExact(io: Io)
    requires IoInv(io)
    ensures io.pending == 0 <==> NobodyWaits(io)
    ensures io.pending == 0 ==> io.kernel == map[]
  {
    hide Bits, Awaiting, Accounted;
    NoBits(io.contexts);
    if io.pending != 0 {
      var fd :| 0 <= fd < |io.contexts| && io.contexts[fd].events != {};
      NonEmpty(io.contexts[fd].events);
      assert Waiter(io, fd, READ).Some? || Waiter(io, fd, WRITE).Some?;
    }
  }

  /** As shipped, a hang-up on a descriptor with a reader only trips the assertion. */
  lemma HangUpAborts(io: Io, fd: nat)
    requires IoInv(io) && fd < |io.contexts| && io.contexts[fd].events == {READ}
    ensures DispatchIn(io, fd, {HUP}, false).aborted
  {
    hide IoInv, DispatchIn;
    assert HUP in {HUP} * {IN, ERR, HUP} && HUP in {HUP} * {OUT, ERR, HUP};
    assert READ in Real({HUP}) && WRITE in Real({HUP});
    assert READ in io.contexts[fd].events * Real({HUP});
    DispatchEffect(io, fd, {HUP}, false);
  }

  predicate Readable(report: set<Flag>) { IN in report || ERR in report || HUP in report }

  predicate Writable(report: set<Flag>) { OUT in report || ERR in report || HUP in report }

  lemma RealByFlags(report: set<Flag>)
    ensures READ in Real(report) <==> Readable(report)
    ensures WRITE in Real(report) <==> Writable(report)
  {
    assert IN in report ==> IN in report * {IN, ERR, HUP};
    assert OUT in report ==> OUT in report * {OUT, ERR, HUP};
    assert ERR in report ==> ERR in report * {IN, ERR, HUP} && ERR in report * {OUT, ERR, HUP};
    assert HUP in report ==> HUP in report * {IN, ERR, HUP} && HUP in report * {OUT, ERR, HUP};
  }

  /** A report by its flags, while `epoll_ctl` does not fail: a readable one concerns the
      reader, a writable one the writer, an error or a hang-up both. If none of those waits,
      nothing happens; if one waits and the other does not, the assertion fails; otherwise
      exactly those concerned are woken, the reader first. */
  lemma DispatchByFlags(io: Io, fd: nat, report: set<Flag>)
    requires IoInv(io) && fd < |io.contexts|
    ensures var t, r, w := DispatchIn(io, fd, report, false), Waiter(io, fd, READ), Waiter(io, fd, WRITE);
      if !(Readable(report) && r.Some?) && !(Writable(report) && w.Some?) then t == io
      else if (Readable(report) && r.None?) || (Writable(report) && w.None?) then t.aborted
      else
        && !t.aborted
        && t.handed == io.handed + (if Readable(report) then [r.value] else []) + (if Writable(report) then [w.value] else [])
        && Waiter(t, fd, READ) == (if Readable(report) then None else r)
        && Waiter(t, fd, WRITE) == (if Writable(report) then None else w)
        && SameWaiters(io, t, fd, {READ, WRITE})
  {
    hide IoInv, Real, DispatchIn;
    DispatchEffect(io, fd, report, false);
    RealByFlags(report);
    var dirs, events := Real(report), io.contexts[fd].events;
    NonEmpty(events * dirs);
    assert dirs <= events <==> (READ in dirs ==> READ in events) && (WRITE in dirs ==> WRITE in events) by {
      forall d | d in dirs
        ensures d == READ || d == WRITE
      {
      }
    }
  }

  // ----- the object --------------------------------------------------------------------------------

  class IoManager {
    var contexts: seq<Context>
    var kernel: map<nat, set<Dir>>
    var pending: int
    var handed: seq<Task>
    var aborted: bool
    ghost var added: multiset<Task>
    ghost var deleted: multiset<Task>

    ghost function Now(): Io
      reads this
    {
      Io(contexts, kernel, pending, handed, aborted, added, deleted)
    }

    constructor ()
      ensures IoInv(Now()) && NobodyWaits(Now()) && handed == []
    {
      contexts := seq(32, i => IDLE);
      kernel, pending, handed, aborted := map[], 0, [], false;
      added, deleted := multiset{}, multiset{};
      new;
      forall t ensures Awaiting(contexts, t) == 0 && Bits(contexts) == 0 {
        assert contexts == [] + contexts;
        GrowthIsIdle([], contexts, t);
      }
      assert Awaiting(contexts, OfFiber(0)) == 0;
    }

    method AddEvent(fd: nat, d: Dir, cb: Option<Callback>, self: nat, fails: bool) returns (rt: int)
      requires |contexts| >= 2
      modifies this
      ensures (Now(), rt) == AddIn(old(Now()), fd, d, cb, self, fails)
    {
      hide Control, TaskOf, Waits, WithSlot, SlotOf, Grown;
      GrownHasRoom(contexts, fd);
      contexts := Grown(contexts, fd);
      var x := contexts[fd];
      if d in x.events {
        aborted := true;
        return -1;
      }
      var op := if x.events != {} then MOD else ADD;
      var k := Control(kernel, op, fd, x.events + {d}, fails);
      if k.None? {
        return -1;
      }
      if SlotOf(x, d) != EMPTY {
        aborted := true;
        return -1;
      }
      kernel := k.value;
      pending := pending + 1;
      var y := Waits(cb, self);
      contexts := contexts[fd := WithSlot(x, d, y).(events := x.events + {d})];
      added := added + multiset{TaskOf(y)};
      rt := 0;
    }

    method DelEvent(fd: nat, d: Dir, fails: bool) returns (ok: bool)
      modifies this
      ensures (Now(), ok) == DelIn(old(Now()), fd, d, fails)
    {
      if fd >= |contexts| || d !in contexts[fd].events {
        return false;
      }
      var x := contexts[fd];
      var left := x.events - {d};
      var k := Control(kernel, if left != {} then MOD else DEL, fd, left, fails);
      if k.None? {
        return false;
      }
      kernel := k.value;
      contexts := contexts[fd := WithSlot(x, d, EMPTY).(events := left)];
      deleted := deleted + multiset{TaskOf(SlotOf(x, d))};
      pending := pending - 1;
      ok := true;
    }

    /** triggerEvent and the decrement after it. */
    method Trigger(fd: nat, d: Dir)
      requires fd < |contexts|
      modifies this
      ensures Now() == Fired(old(Now()), fd, d)
    {
      var x := contexts[fd];
      if d !in x.events {
        aborted := true;
        return;
      }
      handed := handed + [TaskOf(SlotOf(x, d))];
      contexts := contexts[fd := WithSlot(x, d, EMPTY).(events := x.events - {d})];
      pending := pending - 1;
    }

    method CancelEvent(fd: nat, d: Dir, fails: bool) returns (ok: bool)
      modifies this
      ensures (Now(), ok) == CancelIn(old(Now()), fd, d, fails)
    {
      if fd >= |contexts| || d !in contexts[fd].events {
        return false;
      }
      var left := contexts[fd].events - {d};
      var k := Control(kernel, if left != {} then MOD else DEL, fd, left, fails);
      if k.None? {
        return false;
      }
      kernel := k.value;
      Trigger(fd, d);
      ok := true;
    }

    method CancelEverything(fd: nat, fails: bool) returns (ok: bool)
      modifies this
      ensures (Now(), ok) == CancelAllIn(old(Now()), fd, fails)
    {
      hide Fired;
      if fd >= |contexts| || contexts[fd].events == {} {
        return false;
      }
      var k := Control(kernel, DEL, fd, {}, fails);
      if k.None? {
        return false;
      }
      kernel := k.value;
      if READ in contexts[fd].events {
        Trigger(fd, READ);
        FiredSize(old(Now()).(kernel := k.value), fd, READ);
      }
      if WRITE in contexts[fd].events {
        FiredSize(Now(), fd, WRITE);
        Trigger(fd, WRITE);
      }
      if contexts[fd].events != {} {
        aborted := true;
      }
      ok := true;
    }

    /** The loop over the reports of one epoll_wait; each comes with epoll_ctl's mood. */
    method DispatchAll(reports: seq<(nat, set<Flag>)>, fails: seq<bool>)
      requires IoInv(Now()) && |fails| == |reports|
      requires Legal(Now(), Calls(reports, fails))
      modifies this
      ensures Now() == AfterAll(old(Now()), Calls(reports, fails)) && IoInv(Now())
    {
      hide IoInv, Fit;
      EveryRunIsSafe(Now(), Calls(reports, fails));
      var i := 0;
      while i < |reports|
        invariant 0 <= i <= |reports|
        invariant Legal(Now(), Calls(reports[i..], fails[i..]))
        invariant AfterAll(Now(), Calls(reports[i..], fails[i..])) == AfterAll(old(Now()), Calls(reports, fails))
      {
        ghost var more := Calls(reports[i..], fails[i..]);
        assert more[1..] == Calls(reports[i + 1..], fails[i + 1..]);
        ghost var was := Now();
        DispatchReady(was, more, reports[i].0, reports[i].1, fails[i]);
        DispatchOne(reports[i].0, reports[i].1, fails[i]);
        i := i + 1;
      }
    }

    method DispatchOne(fd: nat, report: set<Flag>, fails: bool)
      requires fd < |contexts|
      modifies this
      ensures Now() == DispatchIn(old(Now()), fd, report, fails)
    {
      hide Fired, Real;
      var dirs := Real(report);
      var events := contexts[fd].events;
      if events * dirs == {} {
        return;
      }
      var left := events - dirs;
      var k := Control(kernel, if left != {} then MOD else DEL, fd, left, fails);
      if k.None? {
        return;
      }
      kernel := k.value;
      FiredSize(Now(), fd, READ);
      if READ in dirs {
        Trigger(fd, READ);
      }
      if WRITE in dirs {
        Trigger(fd, WRITE);
      }
    }

    /** `stopping(timeout)`: true exactly when a stop was requested and there is no timer, no
        waiter, no queued task and no running one. */
    method Stopping(timers: Timers.TimerManager, tasks: SchedulerRuns.Scheduler, now: nat)
      returns (wait: Option<nat>, r: bool)
      requires IoInv(Now()) && timers.Valid() && Schedulers.Inv(tasks.Now())
      modifies timers`tickled
      ensures r <==>
        && tasks.autoStop && tasks.stopping
        && Timers.Idle(timers.timers) && NobodyWaits(Now())
        && tasks.queue == [] && forall w :: 0 <= w < |tasks.workers| ==> !tasks.workers[w].phase.Running?
    {
      hide IoInv;
      ghost var deadline;
      wait, deadline := timers.GetNextTimer(now);
      PendingIsExact(Now());
      assert tasks.active == 0 <==> forall w :: 0 <= w < |tasks.workers| ==> !tasks.workers[w].phase.Running? by {
        ActiveIsExact(tasks.Now());
      }
      r := wait.None? && pending == 0
        && tasks.autoStop && tasks.stopping && tasks.queue == [] && tasks.active == 0;
    }
  }

  lemma ActiveIsExact(s: Sys)
    requires Schedulers.Inv(s)
    ensures s.active == 0 <==> forall w :: 0 <= w < |s.workers| ==> !s.workers[w].phase.Running?
  {
    TallyZero(s.workers, Holding);
  }

  lemma GrownHasRoom(contexts: seq<Context>, fd: nat)
    requires |contexts| >= 2
    ensures fd < |Grown(contexts, fd)|
  {
  }

  lemma FiredSize(io: Io, fd: nat, d: Dir)
    requires fd < |io.contexts|
    ensures |Fired(io, fd, d).contexts| == |io.contexts|
  {
  }

  function Calls(reports: seq<(nat, set<Flag>)>, fails: seq<bool>): (cs: seq<(Call, bool)>)
    requires |fails| == |reports|
    ensures |cs| == |reports|
  {
    if reports == [] then []
    else [(Dispatch(reports[0].0, reports[0].1), fails[0])] + Calls(reports[1..], fails[1..])
  }

  lemma DispatchReady(io: Io, cs: seq<(Call, bool)>, fd: nat, report: set<Flag>, fails: bool)
    requires Legal(io, cs) && cs != [] && cs[0] == (Dispatch(fd, report), fails)
    ensures fd < |io.contexts|
    ensures Legal(DispatchIn(io, fd, report, fails), cs[1..])
    ensures AfterAll(io, cs) == AfterAll(DispatchIn(io, fd, report, fails), cs[1..])
  {
    hide IoInv;
  }
}
