/**
 The I/O manager: for every file descriptor and direction at most one waiter, the
 kernel's interest set behind `epoll_ctl`, and the counter that keeps the
 manager from stopping while somebody waits. `epoll_ctl` may fail at will.
*/
module IoManagers {
  import opened Wrappers
  import opened Schedulers

  datatype Dir = READ | WRITE

  /** EventContext: a scheduler and either a fiber or a callback, or nothing at all. */
  datatype Slot = Slot(scheduler: bool, fiber: Option<nat>, cb: Option<Callback>)

  const EMPTY := Slot(false, None, None)

  /** FdContext. */
  datatype Context = Context(events: set<Dir>, read: Slot, write: Slot)

  const IDLE := Context({}, EMPTY, EMPTY)

  /** `handed` is what the scheduler was given, in order; `added` and `deleted` are the
      history of successful additions and deletions. */
  datatype Io = Io(
    contexts: seq<Context>, kernel: map<nat, set<Dir>>, pending: int, handed: seq<Task>,
    aborted: bool, added: multiset<Task>, deleted: multiset<Task>)

  // ----- the kernel ------------------------------------------------------------------------

  datatype Ctl = ADD | MOD | DEL

  predicate Lawful(kernel: map<nat, set<Dir>>, op: Ctl, fd: nat)
  {
    op.ADD? <==> fd !in kernel
  }

  /** epoll_ctl refuses an unlawful operation, and may fail for reasons of its own. */
  function Control(kernel: map<nat, set<Dir>>, op: Ctl, fd: nat, events: set<Dir>, fails: bool)
    : Option<map<nat, set<Dir>>>
  {
    if fails || !Lawful(kernel, op, fd) then None
    else if op.DEL? then Some(map g | g in kernel && g != fd :: kernel[g])
    else Some(kernel[fd := events])
  }

  // ----- one descriptor ---------------------------------------------------------------------

  function SlotOf(x: Context, d: Dir): Slot
  {
    if d.READ? then x.read else x.write
  }

  function WithSlot(x: Context, d: Dir, y: Slot): Context
  {
    if d.READ? then x.(read := y) else x.(write := y)
  }

  function TaskOf(y: Slot): Task
  {
    if y.cb.Some? then OfCallback(y.cb.value) else OfFiber(if y.fiber.Some? then y.fiber.value else 0)
  }

  /** triggerEvent followed by the decrement that every caller makes. */
  function Fired(io: Io, fd: nat, d: Dir): Io
    requires fd < |io.contexts|
  {
    var x := io.contexts[fd];
    if d !in x.events then io.(aborted := true)
    else
      io.(contexts := io.contexts[fd := WithSlot(x, d, EMPTY).(events := x.events - {d})],
          handed := io.handed + [TaskOf(SlotOf(x, d))], pending := io.pending - 1)
  }

  function FiredIf(io: Io, fd: nat, d: Dir, wanted: bool): Io
    requires fd < |io.contexts|
  {
    if wanted then Fired(io, fd, d) else io
  }

  /** contextResize as addEvent calls it. */
  function Grown(contexts: seq<Context>, fd: nat): seq<Context>
  {
    if fd < |contexts| then contexts
    else contexts + seq(if fd * 3 / 2 > |contexts| then fd * 3 / 2 - |contexts| else 0, i => IDLE)
  }

  // ----- the operations -------------------------------------------------------------------------

  function Waits(cb: Option<Callback>, self: nat): Slot
  {
    if cb.Some? then Slot(true, None, cb) else Slot(true, Some(self), None)
  }

  /** addEvent: -1 when epoll_ctl fails; an occupied direction is an assertion failure. */
  function AddIn(io: Io, fd: nat, d: Dir, cb: Option<Callback>, self: nat, fails: bool): (Io, int)
    requires |io.contexts| >= 2
  {
    AddTo(io.(contexts := Grown(io.contexts, fd)), fd, d, Waits(cb, self), fails)
  }

  function AddTo(io: Io, fd: nat, d: Dir, y: Slot, fails: bool): (Io, int)
    requires fd < |io.contexts|
  {
    var x := io.contexts[fd];
    if d in x.events then (io.(aborted := true), -1)
    else
      var k := Control(io.kernel, if x.events != {} then MOD else ADD, fd, x.events + {d}, fails);
      if k.None? then (io, -1)
      else if SlotOf(x, d) != EMPTY then (io.(aborted := true), -1)
      else
        (io.(contexts := io.contexts[fd := WithSlot(x, d, y).(events := x.events + {d})],
             kernel := k.value, pending := io.pending + 1, added := io.added + multiset{TaskOf(y)}), 0)
  }

  /** What is left of the interest in a descriptor without the given directions. */
  function Narrowed(io: Io, fd: nat, gone: set<Dir>, fails: bool): Option<map<nat, set<Dir>>>
    requires fd < |io.contexts|
  {
    var left := io.contexts[fd].events - gone;
    Control(io.kernel, if left != {} then MOD else DEL, fd, left, fails)
  }

  function DelIn(io: Io, fd: nat, d: Dir, fails: bool): (Io, bool)
  {
    if fd >= |io.contexts| || d !in io.contexts[fd].events then (io, false)
    else
      var k, x := Narrowed(io, fd, {d}, fails), io.contexts[fd];
      if k.None? then (io, false)
      else
        (io.(contexts := io.contexts[fd := WithSlot(x, d, EMPTY).(events := x.events - {d})],
             kernel := k.value, pending := io.pending - 1,
             deleted := io.deleted + multiset{TaskOf(SlotOf(x, d))}), true)
  }

  function CancelIn(io: Io, fd: nat, d: Dir, fails: bool): (Io, bool)
  {
    if fd >= |io.contexts| || d !in io.contexts[fd].events then (io, false)
    else
      var k := Narrowed(io, fd, {d}, fails);
      if k.None? then (io, false) else (Fired(io.(kernel := k.value), fd, d), true)
  }

  function CancelAllIn(io: Io, fd: nat, fails: bool): (Io, bool)
  {
    if fd >= |io.contexts| || io.contexts[fd].events == {} then (io, false)
    else
      var k := Control(io.kernel, DEL, fd, {}, fails);
      if k.None? then (io, false)
      else
        var a := FiredIf(io.(kernel := k.value), fd, READ, READ in io.contexts[fd].events);
        var b := FiredIf(a, fd, WRITE, WRITE in a.contexts[fd].events);
        (if b.contexts[fd].events == {} then b else b.(aborted := true), true)
  }

  datatype Flag = IN | OUT | ERR | HUP

  /** The directions an epoll report stands for: an error or a hang-up is both. */
  function Real(report: set<Flag>): set<Dir>
  {
    (if report * {IN, ERR, HUP} != {} then {READ} else {}) + (if report * {OUT, ERR, HUP} != {} then {WRITE} else {})
  }

  /** One report in the dispatch part of `idle`. */
  function DispatchIn(io: Io, fd: nat, report: set<Flag>, fails: bool): Io
    requires fd < |io.contexts|
  {
    var dirs := Real(report);
    if io.contexts[fd].events * dirs == {} then io
    else
      var k := Narrowed(io, fd, dirs, fails);
      if k.None? then io
      else FiredIf(FiredIf(io.(kernel := k.value), fd, READ, READ in dirs), fd, WRITE, WRITE in dirs)
  }

  // ----- the invariant ------------------------------------------------------------------------------

  /** Who waits for a direction of a descriptor. */
  function Waiter(io: Io, fd: nat, d: Dir): Option<Task>
  {
    if fd < |io.contexts| && d in io.contexts[fd].events then Some(TaskOf(SlotOf(io.contexts[fd], d))) else None
  }

  /** Nobody came or went, except perhaps in the given directions of `fd`. */
  ghost predicate SameWaiters(io: Io, t: Io, fd: nat, except: set<Dir>)
  {
    forall g: nat, e: Dir :: g != fd || e !in except ==> Waiter(t, g, e) == Waiter(io, g, e)
  }

  /** A clear bit means an empty context, a set bit a scheduler and exactly one of fiber
      and callback. */
  predicate SlotOk(x: Context, d: Dir)
  {
    var y := SlotOf(x, d);
    if d in x.events then y.scheduler && (y.fiber.Some? <==> y.cb.None?) else y == EMPTY
  }

  predicate ContextOk(x: Context) { SlotOk(x, READ) && SlotOk(x, WRITE) }

  function One(b: bool): nat { if b then 1 else 0 }

  function Bits(contexts: seq<Context>): nat
  {
    if contexts == [] then 0
    else One(READ in contexts[0].events) + One(WRITE in contexts[0].events) + Bits(contexts[1..])
  }

  function In(x: Context, d: Dir, t: Task): nat { One(d in x.events && TaskOf(SlotOf(x, d)) == t) }

  /** In how many places a task waits. */
  function Awaiting(contexts: seq<Context>, t: Task): nat
  {
    if contexts == [] then 0
    else In(contexts[0], READ, t) + In(contexts[0], WRITE, t) + Awaiting(contexts[1..], t)
  }

  /** The kernel's interest set is what the contexts record. */
  predicate KernelOk(io: Io)
  {
    && (forall fd :: fd in io.kernel ==> fd < |io.contexts|)
    && (forall fd :: 0 <= fd < |io.contexts| ==>
          && (fd in io.kernel <==> io.contexts[fd].events != {})
          && (fd in io.kernel ==> io.kernel[fd] == io.contexts[fd].events))
  }

  /** Every waiter ever added waits, was handed to the scheduler or was deleted, once. */
  ghost predicate Accounted(io: Io)
  {
    forall t :: Awaiting(io.contexts, t) + multiset(io.handed)[t] + io.deleted[t] == io.added[t]
  }

  ghost predicate IoInv(io: Io)
  {
    && !io.aborted && |io.contexts| >= 2
    && (forall fd :: 0 <= fd < |io.contexts| ==> ContextOk(io.contexts[fd]))
    && KernelOk(io) && io.pending == Bits(io.contexts) && Accounted(io)
  }

  lemma {:induction false} BitsUpdate(cs: seq<Context>, fd: nat, y: Context)
    requires fd < |cs|
    ensures Bits(cs[fd := y]) + One(READ in cs[fd].events) + One(WRITE in cs[fd].events) ==
            Bits(cs) + One(READ in y.events) + One(WRITE in y.events)
  {
    if fd == 0 {
      assert cs[fd := y][1..] == cs[1..];
    } else {
      assert cs[fd := y][1..] == cs[1..][fd - 1 := y];
      BitsUpdate(cs[1..], fd - 1, y);
    }
  }

  lemma {:induction false} WaitingUpdate(cs: seq<Context>, fd: nat, y: Context, t: Task)
    requires fd < |cs|
    ensures Awaiting(cs[fd := y], t) + In(cs[fd], READ, t) + In(cs[fd], WRITE, t) ==
            Awaiting(cs, t) + In(y, READ, t) + In(y, WRITE, t)
  {
    hide In;
    if fd == 0 {
      assert cs[fd := y][1..] == cs[1..];
    } else {
      assert cs[fd := y][1..] == cs[1..][fd - 1 := y];
      WaitingUpdate(cs[1..], fd - 1, y, t);
    }
  }

  lemma {:induction false} GrowthIsIdle(cs: seq<Context>, more: seq<Context>, t: Task)
    requires forall i :: 0 <= i < |more| ==> more[i] == IDLE
    ensures Bits(cs + more) == Bits(cs) && Awaiting(cs + more, t) == Awaiting(cs, t)
    decreases |cs| + |more|
  {
    if cs != [] {
      assert (cs + more)[1..] == cs[1..] + more;
      GrowthIsIdle(cs[1..], more, t);
    } else if more != [] {
      assert (cs + more)[1..] == cs + more[1..];
      GrowthIsIdle(cs, more[1..], t);
    } else {
      assert cs + more == cs;
    }
  }

  /** Growing the table makes room for the descriptor and changes no registration. */
  lemma GrownKeeps(io: Io, fd: nat)
    requires IoInv(io)
    ensures fd < |Grown(io.contexts, fd)| && IoInv(io.(contexts := Grown(io.contexts, fd)))
    ensures SameWaiters(io, io.(contexts := Grown(io.contexts, fd)), fd, {})
  {
    hide Bits, Awaiting;
    if fd >= |io.contexts| {
      var more := seq(fd * 3 / 2 - |io.contexts|, i => IDLE);
      assert Grown(io.contexts, fd) == io.contexts + more;
      forall t
        ensures Bits(io.contexts + more) == Bits(io.contexts) && Awaiting(io.contexts + more, t) == Awaiting(io.contexts, t)
      {
        GrowthIsIdle(io.contexts, more, t);
      }
      GrowthIsIdle(io.contexts, more, OfFiber(0));
    }
  }

  // ----- every operation keeps the invariant ---------------------------------------------------------

  /** One direction of one descriptor changes, and the counter and the history keep pace. */
  lemma ChangeKeeps(io: Io, t: Io, fd: nat, d: Dir)
    requires fd < |io.contexts| && |io.contexts| >= 2
    requires forall g :: 0 <= g < |io.contexts| ==> ContextOk(io.contexts[g])
    requires |t.contexts| == |io.contexts| && t.contexts == io.contexts[fd := t.contexts[fd]]
    requires ContextOk(t.contexts[fd]) && SameBut(io.contexts[fd], t.contexts[fd], d)
    requires io.pending == Bits(io.contexts) && Accounted(io)
    requires t.pending - io.pending == One(d in t.contexts[fd].events) - One(d in io.contexts[fd].events)
    requires forall k :: In(t.contexts[fd], d, k) + multiset(t.handed)[k] + t.deleted[k] + io.added[k] ==
                         In(io.contexts[fd], d, k) + multiset(io.handed)[k] + io.deleted[k] + t.added[k]
    ensures t.pending == Bits(t.contexts) && Accounted(t)
    ensures forall g :: 0 <= g < |t.contexts| ==> ContextOk(t.contexts[g])
  {
    hide Bits, Awaiting, ContextOk, In;
    var x, y := io.contexts[fd], t.contexts[fd];
    BitsUpdate(io.contexts, fd, y);
    forall k
      ensures Awaiting(t.contexts, k) + multiset(t.handed)[k] + t.deleted[k] == t.added[k]
    {
      WaitingUpdate(io.contexts, fd, y, k);
      assert Awaiting(io.contexts, k) + multiset(io.handed)[k] + io.deleted[k] == io.added[k];
      OtherSame(x, y, d, k);
    }
  }

  /** The contexts agree on the other direction. */
  predicate SameBut(x: Context, y: Context, d: Dir)
  {
    var o := if d.READ? then WRITE else READ;
    (o in x.events <==> o in y.events) && SlotOf(x, o) == SlotOf(y, o)
  }

  lemma OtherSame(x: Context, y: Context, d: Dir, k: Task)
    requires SameBut(x, y, d)
    ensures In(x, if d.READ? then WRITE else READ, k) == In(y, if d.READ? then WRITE else READ, k)
  {
  }

  /** All of the invariant except the kernel's part. */
  ghost predicate Tidy(io: Io)
  {
    && !io.aborted && |io.contexts| >= 2
    && (forall fd :: 0 <= fd < |io.contexts| ==> ContextOk(io.contexts[fd]))
    && io.pending == Bits(io.contexts) && Accounted(io)
  }

  /** Firing a registered direction hands exactly its waiter over, leaves an empty context
      and touches nothing else. */
  lemma FiredKeeps(io: Io, fd: nat, d: Dir)
    requires Tidy(io) && fd < |io.contexts| && d in io.contexts[fd].events
    ensures var t := Fired(io, fd, d);
            && Tidy(t) && t.kernel == io.kernel && t.deleted == io.deleted && t.added == io.added
            && t.contexts == io.contexts[fd := t.contexts[fd]]
            && t.contexts[fd].events == io.contexts[fd].events - {d}
            && t.handed == io.handed + [Waiter(io, fd, d).value]
            && Waiter(t, fd, d) == None
            && SameWaiters(io, t, fd, {d})
  {
    hide Bits, Awaiting, Accounted;
    var t := Fired(io, fd, d);
    var x, y := io.contexts[fd], t.contexts[fd];
    assert ContextOk(x);
    forall k
      ensures In(y, d, k) + multiset(t.handed)[k] == In(x, d, k) + multiset(io.handed)[k]
    {
    }
    ChangeKeeps(io, t, fd, d);
  }

  /** The kernel after the interest in `fd` was set to the events `t` records for it. */
  lemma KernelFollows(io: Io, t: Io, fd: nat)
    requires KernelOk(io) && fd < |io.contexts| == |t.contexts|
    requires t.contexts == io.contexts[fd := t.contexts[fd]]
    requires t.kernel == if t.contexts[fd].events == {} then map g | g in io.kernel && g != fd :: io.kernel[g]
                         else io.kernel[fd := t.contexts[fd].events]
    ensures KernelOk(t)
  {
  }

  lemma KernelAt(io: Io, fd: nat)
    requires KernelOk(io)
    ensures fd < |io.contexts| ==> (fd in io.kernel <==> io.contexts[fd].events != {})
  {
  }

  /** The operation an addition chooses is always lawful, so it fails only when
      `epoll_ctl` does; then no registration changes. Otherwise the waiter is registered and
      nothing else changes. Only an occupied direction trips an assertion. */
  lemma AddEffect(io: Io, fd: nat, d: Dir, cb: Option<Callback>, self: nat, fails: bool)
    requires IoInv(io)
    ensures var (t, rt) := AddIn(io, fd, d, cb, self, fails);
            && (t.aborted <==> Waiter(io, fd, d).Some?)
            && (rt == 0 <==> Waiter(io, fd, d).None? && !fails)
            && SameWaiters(io, t, fd, {d}) && t.handed == io.handed && t.deleted == io.deleted
            && (!t.aborted ==> IoInv(t))
            && (rt == 0 ==> Waiter(t, fd, d) == Some(if cb.Some? then OfCallback(cb.value) else OfFiber(self))
                            && t.added == io.added + multiset{Waiter(t, fd, d).value})
            && (rt != 0 ==> rt == -1 && Waiter(t, fd, d) == Waiter(io, fd, d) && t.kernel == io.kernel && t.added == io.added)
  {
    hide Bits, Awaiting, Accounted, Grown, KernelOk;
    GrownKeeps(io, fd);
    var u := io.(contexts := Grown(io.contexts, fd));
    var y := Waits(cb, self);
    assert Waiter(u, fd, d) == Waiter(io, fd, d);
    assert ContextOk(u.contexts[fd]);
    if Waiter(io, fd, d).None? && !fails {
      AddSucceeds(u, fd, d, y);
    }
  }

  lemma AddSucceeds(io: Io, fd: nat, d: Dir, y: Slot)
    requires IoInv(io) && fd < |io.contexts| && d !in io.contexts[fd].events
    requires y.scheduler && (y.fiber.Some? <==> y.cb.None?)
    ensures var (t, rt) := AddTo(io, fd, d, y, false);
            && rt == 0 && IoInv(t) && SameWaiters(io, t, fd, {d}) && Waiter(t, fd, d) == Some(TaskOf(y))
            && t.handed == io.handed && t.deleted == io.deleted && t.added == io.added + multiset{TaskOf(y)}
  {
    hide Bits, Awaiting, Accounted, KernelOk, In, Waiter;
    KernelAt(io, fd);
    var (t, rt) := AddTo(io, fd, d, y, false);
    var x := io.contexts[fd];
    assert ContextOk(x);
    forall k
      ensures In(t.contexts[fd], d, k) + io.added[k] == In(x, d, k) + t.added[k]
    {
      NewWaiter(x, d, y, k);
    }
    ChangeKeeps(io, t, fd, d);
    KernelFollows(io, t, fd);
    AddedWaiter(io, t, fd, d);
  }

  lemma AddedWaiter(io: Io, t: Io, fd: nat, d: Dir)
    requires fd < |io.contexts| == |t.contexts| && t.contexts == io.contexts[fd := t.contexts[fd]]
    requires SameBut(io.contexts[fd], t.contexts[fd], d) && d in t.contexts[fd].events
    ensures SameWaiters(io, t, fd, {d}) && Waiter(t, fd, d) == Some(TaskOf(SlotOf(t.contexts[fd], d)))
  {
    forall g: nat, e: Dir | g != fd || e != d
      ensures Waiter(t, g, e) == Waiter(io, g, e)
    {
    }
  }

  /** The new slot counts for its own task only. */
  lemma NewWaiter(x: Context, d: Dir, y: Slot, k: Task)
    requires d !in x.events
    ensures In(WithSlot(x, d, y).(events := x.events + {d}), d, k) == multiset{TaskOf(y)}[k] && In(x, d, k) == 0
  {
  }

  /** A deletion succeeds exactly when somebody waits and `epoll_ctl` does not fail; the
      waiter is dropped and scheduled by nobody. */
  lemma DelEffect(io: Io, fd: nat, d: Dir, fails: bool)
    requires IoInv(io)
    ensures var (t, ok) := DelIn(io, fd, d, fails);
            && IoInv(t) && (ok <==> Waiter(io, fd, d).Some? && !fails)
            && SameWaiters(io, t, fd, {d}) && t.handed == io.handed && t.added == io.added
            && (ok ==> Waiter(t, fd, d) == None && t.deleted == io.deleted + multiset{Waiter(io, fd, d).value})
            && (!ok ==> t == io)
  {
    hide Bits, Awaiting, Accounted, KernelOk;
    KernelAt(io, fd);
    var (t, ok) := DelIn(io, fd, d, fails);
    if ok {
      var x, y := io.contexts[fd], t.contexts[fd];
      assert ContextOk(x);
      forall k
        ensures In(y, d, k) + t.deleted[k] == In(x, d, k) + io.deleted[k]
      {
      }
      ChangeKeeps(io, t, fd, d);
      KernelFollows(io, t, fd);
    }
  }

  /** A cancellation succeeds exactly when somebody waits and `epoll_ctl` does not fail;
      the waiter is handed to the scheduler once. */
  lemma CancelEffect(io: Io, fd: nat, d: Dir, fails: bool)
    requires IoInv(io)
    ensures var (t, ok) := CancelIn(io, fd, d, fails);
            && IoInv(t) && (ok <==> Waiter(io, fd, d).Some? && !fails)
            && SameWaiters(io, t, fd, {d}) && t.added == io.added && t.deleted == io.deleted
            && (ok ==> Waiter(t, fd, d) == None && t.handed == io.handed + [Waiter(io, fd, d).value])
            && (!ok ==> t == io)
  {
    hide Bits, Awaiting, Accounted, Fired;
    var (t, ok) := CancelIn(io, fd, d, fails);
    if ok {
      var k := Narrowed(io, fd, {d}, fails).value;
      var v := io.(kernel := k);
      assert Tidy(v) by { TidyKernel(io, k); }
      FiredKeeps(v, fd, d);
      KernelFollows(io, t, fd);
    }
  }

  lemma TidyKernel(io: Io, k: map<nat, set<Dir>>)
    requires Tidy(io)
    ensures Tidy(io.(kernel := k))
  {
    hide Bits, Awaiting;
    assert Accounted(io.(kernel := k)) by {
      forall t ensures Awaiting(io.contexts, t) + multiset(io.handed)[t] + io.deleted[t] == io.added[t] {}
    }
  }

  function AsList(x: Option<Task>): seq<Task> { if x.Some? then [x.value] else [] }

  /** The waiters of the given directions, in the order they are woken. */
  function WaitersOf(io: Io, fd: nat, dirs: set<Dir>): seq<Task>
  {
    (if READ in dirs then AsList(Waiter(io, fd, READ)) else []) + (if WRITE in dirs then AsList(Waiter(io, fd, WRITE)) else [])
  }

  function FiredAll(io: Io, fd: nat, dirs: set<Dir>): Io
    requires fd < |io.contexts|
  {
    FiredIf(FiredIf(io, fd, READ, READ in dirs), fd, WRITE, WRITE in dirs)
  }

  /** Firing registered directions wakes exactly their waiters, once each. */
  lemma FiredAllKeeps(io: Io, fd: nat, dirs: set<Dir>)
    requires Tidy(io) && fd < |io.contexts| && dirs <= io.contexts[fd].events
    ensures var t := FiredAll(io, fd, dirs);
            && Tidy(t) && t.kernel == io.kernel && t.deleted == io.deleted && t.added == io.added
            && t.contexts == io.contexts[fd := t.contexts[fd]]
            && t.contexts[fd].events == io.contexts[fd].events - dirs
            && t.handed == io.handed + WaitersOf(io, fd, dirs)
            && SameWaiters(io, t, fd, dirs) && forall d :: d in dirs ==> Waiter(t, fd, d) == None
  {
    hide Tidy, Fired;
    var a := FiredIf(io, fd, READ, READ in dirs);
    if READ in dirs {
      FiredKeeps(io, fd, READ);
    }
    assert Waiter(a, fd, WRITE) == Waiter(io, fd, WRITE);
    if WRITE in dirs {
      FiredKeeps(a, fd, WRITE);
    }
    var t := FiredAll(io, fd, dirs);
    assert t.contexts[fd].events == io.contexts[fd].events - dirs by {
      forall d: Dir ensures d in t.contexts[fd].events <==> d in io.contexts[fd].events - dirs {
        assert d == READ || d == WRITE;
      }
    }
  }

  /** A cancellation of everything wakes the reader, then the writer. */
  lemma CancelAllEffect(io: Io, fd: nat, fails: bool)
    requires IoInv(io)
    ensures var (t, ok) := CancelAllIn(io, fd, fails);
            && IoInv(t)
            && (ok <==> (Waiter(io, fd, READ).Some? || Waiter(io, fd, WRITE).Some?) && !fails)
            && SameWaiters(io, t, fd, {READ, WRITE}) && t.added == io.added && t.deleted == io.deleted
            && (ok ==> Waiter(t, fd, READ) == None && Waiter(t, fd, WRITE) == None
                       && t.handed == io.handed + WaitersOf(io, fd, {READ, WRITE}))
            && (!ok ==> t == io)
  {
    hide Bits, Awaiting, Accounted, Fired;
    var (t, ok) := CancelAllIn(io, fd, fails);
    if fd < |io.contexts| && io.contexts[fd].events != {} {
      var events := io.contexts[fd].events;
      NonEmpty(events);
      if ok {
        var k := Control(io.kernel, DEL, fd, {}, fails).value;
        assert Tidy(io.(kernel := k)) by { TidyKernel(io, k); }
        FiredAllKeeps(io.(kernel := k), fd, events);
        CancelAllIsFiredAll(io.(kernel := k), fd);
        KernelFollows(io, t, fd);
      }
    }
  }

  lemma NonEmpty(events: set<Dir>)
    ensures events != {} <==> READ in events || WRITE in events
  {
    if events != {} {
      var d :| d in events;
      assert d == READ || d == WRITE;
    }
  }

  lemma CancelAllIsFiredAll(io: Io, fd: nat)
    requires Tidy(io) && fd < |io.contexts|
    ensures var events := io.contexts[fd].events;
            var a := FiredIf(io, fd, READ, READ in events);
            FiredIf(a, fd, WRITE, WRITE in a.contexts[fd].events) == FiredAll(io, fd, events)
    ensures WaitersOf(io, fd, io.contexts[fd].events) == WaitersOf(io, fd, {READ, WRITE})
  {
  }

  /** Dispatching a report as shipped: an assertion fails exactly when the report overlaps
      the registered directions without being among them, and `epoll_ctl` succeeds.
      Otherwise the registered directions reported are woken, each once. */
  lemma DispatchEffect(io: Io, fd: nat, report: set<Flag>, fails: bool)
    requires IoInv(io) && fd < |io.contexts|
    ensures var (t, dirs, events) := (DispatchIn(io, fd, report, fails), Real(report), io.contexts[fd].events);
            && (t.aborted <==> events * dirs != {} && !(dirs <= events) && !fails)
            && (!t.aborted ==>
                  && IoInv(t) && t.added == io.added && t.deleted == io.deleted
                  && (events * dirs == {} || fails ==> t == io)
                  && (events * dirs != {} && !fails ==>
                        && t.handed == io.handed + WaitersOf(io, fd, dirs)
                        && SameWaiters(io, t, fd, dirs) && forall d :: d in dirs ==> Waiter(t, fd, d) == None))
  {
    hide Bits, Awaiting, Accounted, Fired, Real;
    var t, dirs, events := DispatchIn(io, fd, report, fails), Real(report), io.contexts[fd].events;
    if events * dirs != {} && !fails {
      assert events != {};
      var k := Narrowed(io, fd, dirs, fails).value;
      assert Tidy(io.(kernel := k)) by { TidyKernel(io, k); }
      if dirs <= events {
        FiredAllKeeps(io.(kernel := k), fd, dirs);
        KernelFollows(io, t, fd);
      } else {
        StrayReport(io.(kernel := k), fd, dirs);
      }
    }
  }

  /** A reported direction that nobody registered trips the assertion in triggerEvent. */
  lemma StrayReport(io: Io, fd: nat, dirs: set<Dir>)
    requires fd < |io.contexts| && !(dirs <= io.contexts[fd].events)
    ensures FiredAll(io, fd, dirs).aborted
  {
    var d :| d in dirs && d !in io.contexts[fd].events;
    var a := FiredIf(io, fd, READ, READ in dirs);
    if d == READ {
      assert a.aborted;
    } else {
      assert d == WRITE && WRITE !in a.contexts[fd].events;
    }
  }
}
