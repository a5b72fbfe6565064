/**
 Hooked I/O: blocking calls turned into a retry loop that arms a timer, registers
 for readiness and parks the fiber. Calls, timers, timer callbacks and the I/O
 manager interleave freely; every other use of the manager is possible in
 between, except that nobody deletes a waiter it did not add.
*/
module HookedIo {
  import opened Wrappers
  import opened Schedulers
  import opened IoManagers
  import IoRuns

  /** do_io retries after a wake-up, connect_with_timeout asks for the socket's error. */
  datatype Kind = Transfer | Connect

  datatype Answer = Answered | TimedOut | Failed

  datatype Stage = Trying | Armed | Suspended | Done(answer: Answer)

  /** One call, made by the fiber of the same number. `cancelled` is the shared flag of the
      timer condition, `resumes` how often the fiber went on after parking. */
  datatype Call = Call(
    kind: Kind, fd: nat, d: Dir, timeout: bool,
    stage: Stage, cancelled: bool, timer: Option<nat>, resumes: nat)

  /** Expiry removes a timer and queues its callback, which first sets the flag and then
      cancels the event. */
  datatype Status = Live | Cancelled | Queued | Cancelling | Spent

  datatype Alarm = Alarm(owner: nat, status: Status)

  datatype World = World(io: Io, calls: seq<Call>, alarms: seq<Alarm>)

  datatype Outcome = Again | Interrupted | Returns

  datatype Event =
    | Start(kind: Kind, fd: nat, d: Dir, timeout: bool)
    | Try(c: nat, outcome: Outcome)
    | Register(c: nat, fails: bool)
    | Resume(c: nat)
    | Expire(a: nat)
    | Callback(a: nat)
    | CancelWait(a: nat, fails: bool)
    | Other(call: IoRuns.Call, fails: bool)

  predicate In(s: World, c: nat, stage: Stage) { c < |s.calls| && s.calls[c].stage == stage }

  predicate Is(s: World, a: nat, status: Status) { a < |s.alarms| && s.alarms[a].status == status }

  /** The fiber still waits for readiness. */
  predicate Parked(s: World, c: nat)
  {
    c < |s.calls| && Waiter(s.io, s.calls[c].fd, s.calls[c].d) == Some(OfFiber(c))
  }

  /** How often the scheduler was told to run the fiber again. */
  ghost function Wakes(s: World, c: nat): nat { multiset(s.io.handed)[OfFiber(c)] }

  ghost predicate Possible(s: World, e: Event)
  {
    |s.io.contexts| >= 2 &&
    match e
    case Start(_, _, _, _) => true
    case Try(c, _) => In(s, c, Trying)
    case Register(c, _) => In(s, c, Armed) && Waiter(s.io, s.calls[c].fd, s.calls[c].d).None?
    case Resume(c) => In(s, c, Suspended) && Wakes(s, c) > s.calls[c].resumes
    case Expire(a) => Is(s, a, Live)
    case Callback(a) => Is(s, a, Queued)
    case CancelWait(a, _) => Is(s, a, Cancelling) && s.alarms[a].owner < |s.calls|
    case Other(call, _) =>
      IoRuns.Fit(s.io, call) && !call.Del? && (call.Add? ==> call.cb.Some?)
  }

  /** Timer::cancel has no effect on a timer that has expired. */
  function Disarmed(alarms: seq<Alarm>, timer: Option<nat>): seq<Alarm>
  {
    if timer.Some? && timer.value < |alarms| && alarms[timer.value].status == Live
    then alarms[timer.value := alarms[timer.value].(status := Cancelled)] else alarms
  }

  function With(s: World, c: nat, x: Call): World
    requires c < |s.calls|
  {
    s.(calls := s.calls[c := x])
  }

  function Tried(s: World, c: nat, outcome: Outcome): World
    requires In(s, c, Trying)
  {
    var x := s.calls[c];
    if outcome.Returns? || (outcome.Interrupted? && x.kind.Connect?) then With(s, c, x.(stage := Done(Answered)))
    else if outcome.Interrupted? then s
    else if x.timeout then
      With(s, c, x.(stage := Armed, timer := Some(|s.alarms|))).(alarms := s.alarms + [Alarm(c, Live)])
    else With(s, c, x.(stage := Armed))
  }

  function Registered(s: World, c: nat, fails: bool): World
    requires In(s, c, Armed) && |s.io.contexts| >= 2
  {
    var x := s.calls[c];
    var (io, rt) := AddIn(s.io, x.fd, x.d, None, c, fails);
    if rt == 0 then With(s, c, x.(stage := Suspended)).(io := io)
    else
      With(s, c, x.(stage := Done(if x.kind.Connect? then Answered else Failed), timer := None))
        .(io := io, alarms := Disarmed(s.alarms, x.timer))
  }

  function Resumed(s: World, c: nat): World
    requires In(s, c, Suspended)
  {
    var x := s.calls[c].(resumes := s.calls[c].resumes + 1, timer := None);
    var stage := if x.cancelled then Done(TimedOut) else if x.kind.Connect? then Done(Answered) else Trying;
    With(s, c, x.(stage := stage)).(alarms := Disarmed(s.alarms, s.calls[c].timer))
  }

  function Ran(s: World, a: nat): World
    requires Is(s, a, Queued)
  {
    var c := s.alarms[a].owner;
    if c >= |s.calls| || s.calls[c].stage.Done? || s.calls[c].cancelled then
      s.(alarms := s.alarms[a := Alarm(c, Spent)])
    else
      With(s, c, s.calls[c].(cancelled := true)).(alarms := s.alarms[a := Alarm(c, Cancelling)])
  }

  ghost function After(s: World, e: Event): World
    requires Possible(s, e)
  {
    match e
    case Start(kind, fd, d, timeout) =>
      s.(calls := s.calls + [Call(kind, fd, d, timeout, Trying, false, None, 0)])
    case Try(c, outcome) => Tried(s, c, outcome)
    case Register(c, fails) => Registered(s, c, fails)
    case Resume(c) => Resumed(s, c)
    case Expire(a) => s.(alarms := s.alarms[a := s.alarms[a].(status := Queued)])
    case Callback(a) => Ran(s, a)
    case CancelWait(a, fails) =>
      var x := s.calls[s.alarms[a].owner];
      s.(io := CancelIn(s.io, x.fd, x.d, fails).0, alarms := s.alarms[a := s.alarms[a].(status := Spent)])
    case Other(call, fails) => s.(io := IoRuns.After(s.io, call, fails))
  }

  // ----- the invariant -------------------------------------------------------------------------

  /** A fiber waits only for the descriptor and direction of its own call. */
  ghost predicate OwnPlace(s: World)
  {
    forall g: nat, e: Dir, c: nat :: Waiter(s.io, g, e) == Some(OfFiber(c)) ==>
      In(s, c, Suspended) && s.calls[c].fd == g && s.calls[c].d == e
  }

  function Parks(s: World, c: nat): nat
  {
    if c < |s.calls| then s.calls[c].resumes + One(s.calls[c].stage.Suspended?) else 0
  }

  /** Every park registered the fiber once, and nobody deleted it. */
  ghost predicate Registrations(s: World)
  {
    forall c: nat :: s.io.added[OfFiber(c)] == Parks(s, c) && s.io.deleted[OfFiber(c)] == 0
  }

  predicate Expired(x: Alarm) { x.status.Queued? || x.status.Cancelling? || x.status.Spent? }

  ghost predicate TimedOutOk(s: World, c: nat)
  {
    exists a :: 0 <= a < |s.alarms| && s.alarms[a].owner == c && Expired(s.alarms[a])
  }

  ghost predicate CallOk(s: World, c: nat)
    requires c < |s.calls|
  {
    var x := s.calls[c];
    && (x.timer.Some? ==> x.timeout && x.timer.value < |s.alarms| && s.alarms[x.timer.value].owner == c)
    && (x.timer.Some? ==> x.stage.Armed? || x.stage.Suspended?)
    && (x.timeout && (x.stage.Armed? || x.stage.Suspended?) ==>
          x.timer.Some? && (s.alarms[x.timer.value].status.Live? || s.alarms[x.timer.value].status.Queued? || x.cancelled))
    && (x.cancelled ==> TimedOutOk(s, c))
    && (x.stage == Done(TimedOut) ==> x.cancelled)
  }

  /** A live timer is the one its call remembers. */
  predicate AlarmOk(s: World, a: nat)
    requires a < |s.alarms|
  {
    var x := s.alarms[a];
    && x.owner < |s.calls| && s.calls[x.owner].timeout
    && (x.status.Live? ==> s.calls[x.owner].timer == Some(a))
  }

  ghost predicate Inv(s: World)
  {
    && IoInv(s.io) && OwnPlace(s) && Registrations(s)
    && (forall c :: 0 <= c < |s.calls| ==> CallOk(s, c))
    && (forall a :: 0 <= a < |s.alarms| ==> AlarmOk(s, a))
  }

  // ----- what the invariant means ------------------------------------------------------------------

  /** Where a task waits decides how often it is counted. */
  lemma {:induction false} AwaitingAt(cs: seq<Context>, t: Task, fd: nat, d: Dir)
    requires forall g :: 0 <= g < |cs| ==>
      (forall e: Dir :: e in cs[g].events && TaskOf(SlotOf(cs[g], e)) == t ==> g == fd && e == d)
    ensures Awaiting(cs, t) == One(fd < |cs| && d in cs[fd].events && TaskOf(SlotOf(cs[fd], d)) == t)
  {
    if cs != [] {
      if fd == 0 {
        NowhereElse(cs[1..], t);
      } else {
        AwaitingAt(cs[1..], t, fd - 1, d);
      }
    }
  }

  lemma {:induction false} NowhereElse(cs: seq<Context>, t: Task)
    requires forall g :: 0 <= g < |cs| ==> forall e: Dir :: e in cs[g].events ==> TaskOf(SlotOf(cs[g], e)) != t
    ensures Awaiting(cs, t) == 0
  {
    if cs != [] {
      NowhereElse(cs[1..], t);
    }
  }

  /** A parked fiber is woken exactly once per park: the wake-ups so far are the parks so
      far, less one while the fiber still waits. */
  lemma WokenOncePerPark(s: World, c: nat)
    requires Inv(s) && c < |s.calls|
    ensures Wakes(s, c) + One(Parked(s, c)) == Parks(s, c)
    ensures In(s, c, Suspended) ==> (Parked(s, c) <==> Wakes(s, c) == s.calls[c].resumes)
  {
    hide Awaiting, Bits, KernelOk, CallOk, AlarmOk;
    var x, t := s.calls[c], OfFiber(c);
    forall g, e: Dir | 0 <= g < |s.io.contexts| && e in s.io.contexts[g].events && TaskOf(SlotOf(s.io.contexts[g], e)) == t
      ensures g == x.fd && e == x.d
    {
      assert Waiter(s.io, g, e) == Some(t);
    }
    AwaitingAt(s.io.contexts, t, x.fd, x.d);
    assert Awaiting(s.io.contexts, t) + multiset(s.io.handed)[t] + s.io.deleted[t] == s.io.added[t];
    assert Parked(s, c) ==> In(s, c, Suspended);
  }

  /** A call that has returned left neither a waiter nor a live timer behind; it reports a
      timeout only if one of its own timers expired, and a callback that is still queued does
      nothing. One that has set the flag may yet cancel a wait: WhoWakes says whose. */
  lemma ReturnsClean(s: World, c: nat)
    requires Inv(s) && c < |s.calls| && s.calls[c].stage.Done?
    ensures forall g: nat, e: Dir :: Waiter(s.io, g, e) != Some(OfFiber(c))
    ensures forall a :: 0 <= a < |s.alarms| && s.alarms[a].owner == c ==> !s.alarms[a].status.Live?
    ensures s.calls[c].stage == Done(TimedOut) ==>
      s.calls[c].timeout && exists a :: 0 <= a < |s.alarms| && s.alarms[a].owner == c && Expired(s.alarms[a])
    ensures forall a: nat :: Is(s, a, Queued) && s.alarms[a].owner == c ==> Ran(s, a).calls == s.calls && Ran(s, a).io == s.io
  {
    hide IoInv, Waiter;
    assert CallOk(s, c);
    forall a | 0 <= a < |s.alarms| && s.alarms[a].owner == c
      ensures !s.alarms[a].status.Live? && s.calls[c].timeout
    {
      assert AlarmOk(s, a);
    }
  }

  // ----- every step keeps it -----------------------------------------------------------------------------

  /** The manager changed without a fiber starting to wait. */
  ghost predicate Quiet(io: Io, t: Io)
  {
    && IoInv(t)
    && (forall g: nat, e: Dir, c: nat :: Waiter(t, g, e) == Some(OfFiber(c)) ==> Waiter(io, g, e) == Some(OfFiber(c)))
    && (forall c: nat :: t.added[OfFiber(c)] == io.added[OfFiber(c)])
    && t.deleted == io.deleted
  }

  lemma CancelIsQuiet(io: Io, fd: nat, d: Dir, fails: bool)
    requires IoInv(io)
    ensures Quiet(io, CancelIn(io, fd, d, fails).0)
  {
    hide IoInv, CancelIn, Waiter;
    CancelEffect(io, fd, d, fails);
  }

  lemma OtherIsQuiet(io: Io, call: IoRuns.Call, fails: bool)
    requires IoInv(io) && |io.contexts| >= 2 && IoRuns.Fit(io, call) && !call.Del? && (call.Add? ==> call.cb.Some?)
    ensures Quiet(io, IoRuns.After(io, call, fails))
  {
    hide IoInv, AddIn, CancelIn, CancelAllIn, DispatchIn, Waiter, Real;
    match call
    case Add(fd, d, cb, self) => AddEffect(io, fd, d, cb, self, fails);
    case Cancel(fd, d) => CancelEffect(io, fd, d, fails);
    case CancelAll(fd) => CancelAllEffect(io, fd, fails);
    case Dispatch(fd, report) =>
      assert Real(report) * io.contexts[fd].events == io.contexts[fd].events * Real(report);
      DispatchEffect(io, fd, report, fails);
  }

  /** Only the manager changes, and quietly. */
  lemma QuietKeeps(s: World, t: World)
    requires Inv(s) && Quiet(s.io, t.io) && t.calls == s.calls && t.alarms == s.alarms
    ensures Inv(t)
  {
    hide IoInv, Waiter;
    forall c | 0 <= c < |t.calls|
      ensures CallOk(t, c)
    {
      assert CallOk(s, c);
      SameExpired(s, t, c);
    }
    forall a | 0 <= a < |t.alarms|
      ensures AlarmOk(t, a)
    {
      assert AlarmOk(s, a);
    }
  }

  lemma SameExpired(s: World, t: World, c: nat)
    requires |s.alarms| <= |t.alarms|
    requires forall a :: 0 <= a < |s.alarms| ==>
      t.alarms[a].owner == s.alarms[a].owner && (Expired(s.alarms[a]) ==> Expired(t.alarms[a]))
    ensures TimedOutOk(s, c) ==> TimedOutOk(t, c)
  {
    if a :| 0 <= a < |s.alarms| && s.alarms[a].owner == c && Expired(s.alarms[a]) {
      assert t.alarms[a].owner == c && Expired(t.alarms[a]);
    }
  }

  /** Only call `c` and the timers change; stage and count stay in step with the manager. */
  lemma CallStepKeeps(s: World, t: World, c: nat)
    requires Inv(s) && IoInv(t.io) && OwnPlace(t) && Registrations(t)
    requires c < |s.calls| == |t.calls| && forall b :: 0 <= b < |s.calls| && b != c ==> t.calls[b] == s.calls[b]
    requires t.calls[c].timeout == s.calls[c].timeout && CallOk(t, c)
    requires |s.alarms| <= |t.alarms| <= |s.alarms| + 1
    requires forall a :: 0 <= a < |s.alarms| ==>
      && t.alarms[a].owner == s.alarms[a].owner && (Expired(s.alarms[a]) ==> Expired(t.alarms[a]))
      && (s.alarms[a].owner != c ==> t.alarms[a] == s.alarms[a])
      && (s.alarms[a].owner == c && t.alarms[a].status.Live? ==> t.calls[c].timer == Some(a))
    requires |t.alarms| > |s.alarms| ==>
      t.alarms[|s.alarms|].owner == c && t.calls[c].timeout && t.calls[c].timer == Some(|s.alarms|)
    ensures Inv(t)
  {
    hide IoInv, Waiter, OwnPlace, Registrations;
    forall b | 0 <= b < |t.calls|
      ensures CallOk(t, b)
    {
      if b != c {
        assert CallOk(s, b);
        SameExpired(s, t, b);
      }
    }
    forall a | 0 <= a < |t.alarms|
      ensures AlarmOk(t, a)
    {
      if a < |s.alarms| {
        assert AlarmOk(s, a);
      }
    }
  }

  lemma BeginKeeps(s: World, x: Call)
    requires Inv(s) && x.stage == Trying && !x.cancelled && x.timer == None && x.resumes == 0
    ensures Inv(s.(calls := s.calls + [x]))
  {
    hide IoInv, Waiter;
    var t := s.(calls := s.calls + [x]);
    forall b | 0 <= b < |t.calls|
      ensures CallOk(t, b)
    {
      if b < |s.calls| {
        assert CallOk(s, b);
        SameExpired(s, t, b);
      }
    }
    forall a | 0 <= a < |t.alarms|
      ensures AlarmOk(t, a)
    {
      assert AlarmOk(s, a);
    }
    forall c: nat
      ensures t.io.added[OfFiber(c)] == Parks(t, c)
    {
      assert s.io.added[OfFiber(c)] == Parks(s, c);
    }
  }

  /** The manager and the call's part in it stay as they are. */
  lemma PlaceKept(s: World, t: World, c: nat)
    requires OwnPlace(s) && Registrations(s) && t.io == s.io && c < |s.calls| == |t.calls|
    requires forall b :: 0 <= b < |s.calls| && b != c ==> t.calls[b] == s.calls[b]
    requires t.calls[c].fd == s.calls[c].fd && t.calls[c].d == s.calls[c].d && Parks(t, c) == Parks(s, c)
    requires In(s, c, Suspended) && Parked(s, c) ==> t.calls[c].stage == Suspended
    ensures OwnPlace(t) && Registrations(t)
  {
    hide Waiter;
    forall b: nat
      ensures t.io.added[OfFiber(b)] == Parks(t, b)
    {
      assert s.io.added[OfFiber(b)] == Parks(s, b);
    }
  }

  lemma TryKeeps(s: World, c: nat, outcome: Outcome)
    requires Inv(s) && In(s, c, Trying)
    ensures Inv(Tried(s, c, outcome))
  {
    hide IoInv, OwnPlace, Registrations;
    var t := Tried(s, c, outcome);
    assert CallOk(s, c);
    PlaceKept(s, t, c);
    SameExpired(s, t, c);
    NoLiveTimer(s, c);
    CallStepKeeps(s, t, c);
  }

  lemma NoLiveTimer(s: World, c: nat)
    requires c < |s.calls| && s.calls[c].timer == None && forall a :: 0 <= a < |s.alarms| ==> AlarmOk(s, a)
    ensures forall a :: 0 <= a < |s.alarms| && s.alarms[a].owner == c ==> !s.alarms[a].status.Live?
  {
    forall a | 0 <= a < |s.alarms| && s.alarms[a].owner == c
      ensures !s.alarms[a].status.Live?
    {
      assert AlarmOk(s, a);
    }
  }

  lemma RegisterKeeps(s: World, c: nat, fails: bool)
    requires Inv(s) && In(s, c, Armed) && Waiter(s.io, s.calls[c].fd, s.calls[c].d).None? && |s.io.contexts| >= 2
    ensures Inv(Registered(s, c, fails))
  {
    hide IoInv, AddIn, Waiter;
    var t, x := Registered(s, c, fails), s.calls[c];
    AddEffect(s.io, x.fd, x.d, None, c, fails);
    assert CallOk(s, c);
    SameExpired(s, t, c);
    forall b: nat
      ensures t.io.added[OfFiber(b)] == Parks(t, b) && t.io.deleted[OfFiber(b)] == 0
    {
      assert s.io.added[OfFiber(b)] == Parks(s, b) && s.io.deleted[OfFiber(b)] == 0;
    }
    forall g: nat, e: Dir, b: nat | Waiter(t.io, g, e) == Some(OfFiber(b))
      ensures In(t, b, Suspended) && t.calls[b].fd == g && t.calls[b].d == e
    {
      assert (g == x.fd && e == x.d) || Waiter(t.io, g, e) == Waiter(s.io, g, e);
    }
    LiveIsRemembered(s, c);
    CallStepKeeps(s, t, c);
  }

  lemma LiveIsRemembered(s: World, c: nat)
    requires c < |s.calls| && forall a :: 0 <= a < |s.alarms| ==> AlarmOk(s, a)
    ensures forall a :: 0 <= a < |s.alarms| && s.alarms[a].owner == c && s.alarms[a].status.Live? ==> s.calls[c].timer == Some(a)
  {
    forall a | 0 <= a < |s.alarms| && s.alarms[a].owner == c && s.alarms[a].status.Live?
      ensures s.calls[c].timer == Some(a)
    {
      assert AlarmOk(s, a);
    }
  }

  lemma ResumeKeeps(s: World, c: nat)
    requires Inv(s) && In(s, c, Suspended) && Wakes(s, c) > s.calls[c].resumes
    ensures Inv(Resumed(s, c))
  {
    hide IoInv, OwnPlace, Registrations, Waiter;
    var t := Resumed(s, c);
    WokenOncePerPark(s, c);
    assert CallOk(s, c);
    PlaceKept(s, t, c);
    SameExpired(s, t, c);
    LiveIsRemembered(s, c);
    CallStepKeeps(s, t, c);
  }

  lemma ExpireKeeps(s: World, a: nat)
    requires Inv(s) && Is(s, a, Live)
    ensures Inv(s.(alarms := s.alarms[a := s.alarms[a].(status := Queued)]))
  {
    hide IoInv, OwnPlace, Registrations, Waiter;
    var t := s.(alarms := s.alarms[a := s.alarms[a].(status := Queued)]);
    assert AlarmOk(s, a);
    var c := s.alarms[a].owner;
    assert CallOk(s, c);
    PlaceKept(s, t, c);
    SameExpired(s, t, c);
    LiveIsRemembered(s, c);
    CallStepKeeps(s, t, c);
  }

  lemma CallbackKeeps(s: World, a: nat)
    requires Inv(s) && Is(s, a, Queued)
    ensures Inv(Ran(s, a))
  {
    hide IoInv, OwnPlace, Registrations, Waiter;
    var t, c := Ran(s, a), s.alarms[a].owner;
    assert AlarmOk(s, a);
    assert CallOk(s, c);
    PlaceKept(s, t, c);
    SameExpired(s, t, c);
    LiveIsRemembered(s, c);
    assert t.alarms[a].owner == c && Expired(t.alarms[a]);
    CallStepKeeps(s, t, c);
  }

  lemma CancelWaitKeeps(s: World, a: nat, fails: bool)
    requires Inv(s) && Is(s, a, Cancelling) && s.alarms[a].owner < |s.calls|
    ensures var x := s.calls[s.alarms[a].owner];
            Inv(s.(io := CancelIn(s.io, x.fd, x.d, fails).0, alarms := s.alarms[a := s.alarms[a].(status := Spent)]))
  {
    hide IoInv, OwnPlace, Registrations, Waiter, CancelIn, Quiet;
    var u := s.(alarms := s.alarms[a := s.alarms[a].(status := Spent)]);
    var c := s.alarms[a].owner;
    assert CallOk(s, c);
    PlaceKept(s, u, c);
    SameExpired(s, u, c);
    LiveIsRemembered(s, c);
    CallStepKeeps(s, u, c);
    var io := CancelIn(s.io, s.calls[c].fd, s.calls[c].d, fails).0;
    CancelIsQuiet(s.io, s.calls[c].fd, s.calls[c].d, fails);
    QuietKeeps(u, u.(io := io));
  }

  /** Every interleaving keeps the invariant. */
  lemma StepKeeps(s: World, e: Event)
    requires Inv(s) && Possible(s, e)
    ensures Inv(After(s, e))
  {
    hide Tried, Registered, Resumed, Ran, IoInv, OwnPlace, Registrations, Waiter, CallOk, AlarmOk, Quiet, CancelIn;
    match e
    case Start(kind, fd, d, timeout) => BeginKeeps(s, Call(kind, fd, d, timeout, Trying, false, None, 0));
    case Try(c, outcome) => TryKeeps(s, c, outcome);
    case Register(c, fails) => RegisterKeeps(s, c, fails);
    case Resume(c) => ResumeKeeps(s, c);
    case Expire(a) => ExpireKeeps(s, a);
    case Callback(a) => CallbackKeeps(s, a);
    case CancelWait(a, fails) => CancelWaitKeeps(s, a, fails);
    case Other(call, fails) =>
      OtherIsQuiet(s.io, call, fails);
      QuietKeeps(s, After(s, e));
  }

  // ----- what each step does to its call -------------------------------------------------------------

  /** A blocked system call arms a timer if and only if the call has a timeout; an interrupted
      transfer tries again; anything else is the answer. */
  lemma TryEffect(s: World, c: nat, outcome: Outcome)
    requires Possible(s, Try(c, outcome))
    ensures var t, x := After(s, Try(c, outcome)), s.calls[c];
      && t.io == s.io
      && (outcome.Returns? || (outcome.Interrupted? && x.kind.Connect?) ==> In(t, c, Done(Answered)) && t.alarms == s.alarms)
      && (outcome.Interrupted? && x.kind.Transfer? ==> t == s)
      && (outcome.Again? ==>
            && In(t, c, Armed)
            && (if x.timeout then t.alarms == s.alarms + [Alarm(c, Live)] && t.calls[c].timer == Some(|s.alarms|)
                else t.alarms == s.alarms && t.calls[c].timer == x.timer))
  {
  }

  /** A registration parks the fiber; when it fails, a transfer fails and a connection asks the
      socket, and the timer is gone. */
  lemma RegisterEffect(s: World, c: nat, fails: bool)
    requires Inv(s) && Possible(s, Register(c, fails))
    ensures var t := After(s, Register(c, fails));
      && (!fails ==> In(t, c, Suspended) && Parked(t, c) && t.alarms == s.alarms)
      && (fails ==> In(t, c, Done(if s.calls[c].kind.Connect? then Answered else Failed)) && !Parked(t, c))
      && (fails ==> forall a :: 0 <= a < |t.alarms| && t.alarms[a].owner == c ==> !t.alarms[a].status.Live?)
  {
    hide IoInv, AddIn, Waiter, Registrations;
    assert IoInv(s.io) by { RoomOk(s); }
    AddEffect(s.io, s.calls[c].fd, s.calls[c].d, None, c, fails);
    assert CallOk(s, c);
    LiveIsRemembered(s, c);
  }

  /** A woken call whose flag is set reports the timeout; otherwise a transfer tries again and a
      connection is answered. Its timer is gone. */
  lemma ResumeEffect(s: World, c: nat)
    requires Inv(s) && Possible(s, Resume(c))
    ensures var t, x := After(s, Resume(c)), s.calls[c];
      && t.io == s.io && t.calls[c].resumes == x.resumes + 1 && t.calls[c].cancelled == x.cancelled
      && (x.cancelled ==> In(t, c, Done(TimedOut)))
      && (!x.cancelled && x.kind.Transfer? ==> In(t, c, Trying))
      && (!x.cancelled && x.kind.Connect? ==> In(t, c, Done(Answered)))
      && (forall b :: 0 <= b < |s.calls| && b != c ==> t.calls[b] == s.calls[b])
      && forall a :: 0 <= a < |t.alarms| && t.alarms[a].owner == c ==> !t.alarms[a].status.Live?
  {
    hide IoInv, Waiter, OwnPlace, Registrations;
    assert CallOk(s, c);
    LiveIsRemembered(s, c);
  }

  /** A timer's callback sets the flag of a call in progress and goes on to cancel; of one that
      returned or timed out already it changes nothing. */
  lemma CallbackEffect(s: World, a: nat)
    requires Inv(s) && Possible(s, Callback(a))
    ensures var t, c := After(s, Callback(a)), s.alarms[a].owner;
      && c < |s.calls| && t.io == s.io
      && (if s.calls[c].stage.Done? || s.calls[c].cancelled then t.calls == s.calls && Is(t, a, Spent)
          else t.calls == s.calls[c := s.calls[c].(cancelled := true)] && Is(t, a, Cancelling))
      && forall b :: 0 <= b < |s.alarms| && b != a ==> t.alarms[b] == s.alarms[b]
  {
    hide IoInv, Waiter, OwnPlace, Registrations, CallOk;
    assert AlarmOk(s, a);
  }

  /** A new call has not tried yet, and has no timer and a clear flag; an expiry queues the timer's
      callback; a callback that went on to cancel is over, whether it woke anybody or not. */
  lemma SmallEffects(s: World, e: Event)
    requires Possible(s, e)
    ensures e.Start? ==>
      After(s, e) == s.(calls := s.calls + [Call(e.kind, e.fd, e.d, e.timeout, Trying, false, None, 0)])
    ensures e.Expire? ==> After(s, e) == s.(alarms := s.alarms[e.a := Alarm(s.alarms[e.a].owner, Queued)])
    ensures e.CancelWait? ==>
      After(s, e).calls == s.calls && After(s, e).alarms == s.alarms[e.a := Alarm(s.alarms[e.a].owner, Spent)]
  {
    hide CancelIn, IoRuns.After;
  }

  predicate Answers(s: World, c: nat) { In(s, c, Done(Answered)) && s.calls[c].kind.Transfer? }

  lemma AnswerIsTry(s: World, e: Event, c: nat)
    requires Possible(s, e) && !Answers(s, c) && Answers(After(s, e), c)
    ensures e == Try(c, Returns)
  {
    hide Waiter, AddIn, CancelIn, Wakes, IoRuns.After, IoRuns.Fit;
  }

  // ----- runs -----------------------------------------------------------------------------------------------

  ghost predicate Legal(s: World, es: seq<Event>)
    decreases |es|
  {
    es == [] || (Possible(s, es[0]) && Legal(After(s, es[0]), es[1..]))
  }

  ghost function AfterAll(s: World, es: seq<Event>): World
    requires Legal(s, es)
    decreases |es|
  {
    if es == [] then s else AfterAll(After(s, es[0]), es[1..])
  }

  lemma {:induction false} EveryRunKeeps(s: World, es: seq<Event>)
    requires Inv(s) && Legal(s, es)
    ensures Inv(AfterAll(s, es))
    decreases |es|
  {
    hide Inv, After, Possible;
    if es != [] {
      StepKeeps(s, es[0]);
      EveryRunKeeps(After(s, es[0]), es[1..]);
    }
  }

  /** In every interleaving of readiness, timeout, close and other use of the manager: each
      park is answered by exactly one wake-up, and a call that returned left no waiter and no
      live timer and reports a timeout only if a timer of its own expired. */
  lemma EveryRunIsClean(io: Io, es: seq<Event>, c: nat)
    requires IoInv(io) && (forall b: nat :: io.added[OfFiber(b)] == 0 && io.deleted[OfFiber(b)] == 0)
    requires forall g: nat, e: Dir, b: nat :: Waiter(io, g, e) != Some(OfFiber(b))
    requires Legal(World(io, [], []), es) && c < |AfterAll(World(io, [], []), es).calls|
    ensures var t := AfterAll(World(io, [], []), es);
            && Wakes(t, c) + One(Parked(t, c)) == Parks(t, c)
            && (t.calls[c].stage.Done? ==>
                  && !Parked(t, c) && Wakes(t, c) == t.calls[c].resumes
                  && (forall a :: 0 <= a < |t.alarms| && t.alarms[a].owner == c ==> !t.alarms[a].status.Live?)
                  && (t.calls[c].stage == Done(TimedOut) ==>
                        exists a :: 0 <= a < |t.alarms| && t.alarms[a].owner == c && Expired(t.alarms[a])))
  {
    hide IoInv, Waiter, Legal, AfterAll, CallOk, AlarmOk;
    var s := World(io, [], []);
    assert Inv(s);
    EveryRunKeeps(s, es);
    var t := AfterAll(s, es);
    WokenOncePerPark(t, c);
    if t.calls[c].stage.Done? {
      ReturnsClean(t, c);
    }
  }

  predicate Struck(s: World, c: nat)
  {
    c < |s.calls| && ((s.calls[c].stage.Suspended? && s.calls[c].cancelled) || s.calls[c].stage == Done(TimedOut))
  }

  lemma StruckStays(s: World, e: Event, c: nat)
    requires Possible(s, e) && Struck(s, c)
    ensures Struck(After(s, e), c)
  {
    hide Waiter, AddIn, CancelIn, Wakes, IoRuns.After, IoRuns.Fit;
  }

  /** Once the timeout has struck a suspended call, the call can only end by reporting it. */
  lemma {:induction false} TimeoutIsReported(s: World, es: seq<Event>, c: nat)
    requires Struck(s, c)
    requires Legal(s, es)
    ensures c < |AfterAll(s, es).calls|
    ensures var x := AfterAll(s, es).calls[c]; x.stage == Suspended || x.stage == Done(TimedOut)
    decreases |es|
  {
    hide Possible, After;
    if es != [] {
      StruckStays(s, es[0], c);
      TimeoutIsReported(After(s, es[0]), es[1..], c);
    }
  }

  /** A suspended call with a timeout that has not struck still has it coming: its timer is
      live, or its callback is queued. */
  lemma TimeoutIsComing(s: World, c: nat)
    requires Inv(s) && In(s, c, Suspended) && s.calls[c].timeout && !s.calls[c].cancelled
    ensures s.calls[c].timer.Some?
    ensures var a := s.calls[c].timer.value; (Is(s, a, Live) || Is(s, a, Queued)) && s.alarms[a].owner == c
  {
    hide IoInv;
    assert CallOk(s, c);
  }

  /** In every run a transfer is answered only by its own system call returning. */
  lemma {:induction false} AnsweredByTheCall(s: World, es: seq<Event>, c: nat)
    requires Legal(s, es) && !Answers(s, c) && Answers(AfterAll(s, es), c)
    ensures Try(c, Returns) in es
    decreases |es|
  {
    hide Possible, After, Answers;
    if es != [] {
      if Answers(After(s, es[0]), c) {
        AnswerIsTry(s, es[0], c);
      } else {
        AnsweredByTheCall(After(s, es[0]), es[1..], c);
        assert forall e :: e in es[1..] ==> e in es;
      }
    }
  }

  // ----- when a timeout is lost ------------------------------------------------------------------

  /** A step of call `c` itself: its timers, their callbacks and its own resumption. */
  predicate Own(s: World, e: Event, c: nat)
  {
    match e
    case Expire(a) => a < |s.alarms| && s.alarms[a].owner == c
    case Callback(a) => a < |s.alarms| && s.alarms[a].owner == c
    case CancelWait(a, _) => a < |s.alarms| && s.alarms[a].owner == c
    case Resume(b) => b == c
    case _ => false
  }

  ghost predicate Alone(s: World, es: seq<Event>, c: nat)
    requires Legal(s, es)
    decreases |es|
  {
    es == [] || (Own(s, es[0], c) && Alone(After(s, es[0]), es[1..], c))
  }

  /** Left to itself, the call can end by reporting its timeout. */
  ghost predicate CanTimeOut(s: World, c: nat)
  {
    exists es :: Legal(s, es) && Alone(s, es, c) && In(AfterAll(s, es), c, Done(TimedOut))
  }

  predicate Striking(s: World, c: nat)
  {
    exists a :: 0 <= a < |s.alarms| && s.alarms[a].owner == c && s.alarms[a].status.Cancelling?
  }

  /** Parked, with the flag set and nobody about to cancel. */
  predicate Lost(s: World, c: nat)
  {
    In(s, c, Suspended) && Parked(s, c) && s.calls[c].cancelled && !Striking(s, c)
  }

  lemma LostStays(s: World, e: Event, c: nat)
    requires Inv(s) && Possible(s, e) && Lost(s, c) && Own(s, e, c)
    ensures Lost(After(s, e), c)
  {
    hide Inv, Waiter, CancelIn;
    WokenOncePerPark(s, c);
  }

  lemma {:induction false} LostForever(s: World, es: seq<Event>, c: nat)
    requires Inv(s) && Legal(s, es) && Lost(s, c) && Alone(s, es, c)
    ensures Lost(AfterAll(s, es), c)
    decreases |es|
  {
    hide Inv, After, Possible, Lost, Own;
    if es != [] {
      LostStays(s, es[0], c);
      StepKeeps(s, es[0]);
      LostForever(After(s, es[0]), es[1..], c);
    }
  }

  /** A run with one own step in front. */
  lemma OwnFirst(s: World, e: Event, c: nat)
    requires Possible(s, e) && Own(s, e, c) && CanTimeOut(After(s, e), c)
    ensures CanTimeOut(s, c)
  {
    hide Possible, After, Own, In;
    var t := After(s, e);
    var es :| Legal(t, es) && Alone(t, es, c) && In(AfterAll(t, es), c, Done(TimedOut));
    var all := [e] + es;
    assert all[0] == e && all[1..] == es;
    assert Legal(s, all) && Alone(s, all, c) && AfterAll(s, all) == AfterAll(t, es);
  }

  lemma DoneCan(s: World, c: nat)
    requires In(s, c, Done(TimedOut))
    ensures CanTimeOut(s, c)
  {
    assert Legal(s, []) && Alone(s, [], c) && AfterAll(s, []) == s;
  }

  /** A callback about to cancel wakes the fiber, which reports the timeout. */
  lemma StrikingCan(s: World, c: nat, a: nat)
    requires Inv(s) && In(s, c, Suspended) && Parked(s, c) && s.calls[c].cancelled
    requires Is(s, a, Cancelling) && s.alarms[a].owner == c
    ensures CanTimeOut(s, c)
  {
    hide Inv, Waiter, CancelIn, CanTimeOut, IoInv;
    var x := s.calls[c];
    WokenOncePerPark(s, c);
    assert IoInv(s.io) && |s.io.contexts| >= 2 by { RoomOk(s); }
    CancelEffect(s.io, x.fd, x.d, false);
    var t := After(s, CancelWait(a, false));
    StepKeeps(s, CancelWait(a, false));
    RoomOk(t);
    assert Wakes(t, c) == Wakes(s, c) + 1;
    DoneCan(After(t, Resume(c)), c);
    OwnFirst(t, Resume(c), c);
    OwnFirst(s, CancelWait(a, false), c);
  }

  lemma RoomOk(s: World)
    requires Inv(s)
    ensures IoInv(s.io) && |s.io.contexts| >= 2
  {
    IoRuns.SizeOk(s.io);
  }

  /** A timer that has not struck still can. */
  lemma ComingCan(s: World, c: nat)
    requires Inv(s) && In(s, c, Suspended) && Parked(s, c) && s.calls[c].timeout && !s.calls[c].cancelled
    ensures CanTimeOut(s, c)
  {
    hide Inv, Waiter, CanTimeOut, IoInv;
    TimeoutIsComing(s, c);
    RoomOk(s);
    var a := s.calls[c].timer.value;
    if Is(s, a, Live) {
      var t := After(s, Expire(a));
      StepKeeps(s, Expire(a));
      QueuedCan(t, c, a);
      OwnFirst(s, Expire(a), c);
    } else {
      QueuedCan(s, c, a);
    }
  }

  lemma QueuedCan(s: World, c: nat, a: nat)
    requires Inv(s) && In(s, c, Suspended) && Parked(s, c) && !s.calls[c].cancelled
    requires Is(s, a, Queued) && s.alarms[a].owner == c
    ensures CanTimeOut(s, c)
  {
    hide Inv, Waiter, CanTimeOut, IoInv;
    RoomOk(s);
    var t := After(s, Callback(a));
    StepKeeps(s, Callback(a));
    StrikingCan(t, c, a);
    OwnFirst(s, Callback(a), c);
  }

  /** A parked call with a timeout can still report it, left to itself, if and only if the
      shared flag is not set or one of its callbacks is about to cancel. Otherwise only
      others can wake it. */
  lemma TimeoutIsLostExactly(s: World, c: nat)
    requires Inv(s) && In(s, c, Suspended) && Parked(s, c) && s.calls[c].timeout
    ensures CanTimeOut(s, c) <==> !s.calls[c].cancelled || Striking(s, c)
  {
    hide Inv, Waiter, Legal, Alone, AfterAll;
    if !s.calls[c].cancelled {
      ComingCan(s, c);
    } else if a :| 0 <= a < |s.alarms| && s.alarms[a].owner == c && s.alarms[a].status.Cancelling? {
      StrikingCan(s, c, a);
    } else {
      forall es | Legal(s, es) && Alone(s, es, c)
        ensures !In(AfterAll(s, es), c, Done(TimedOut))
      {
        LostForever(s, es, c);
      }
    }
  }

  /** So at registration it is a test of the flag, and of a callback caught in between. */
  lemma LostAtRegistration(s: World, c: nat)
    requires Inv(s) && Possible(s, Register(c, false)) && s.calls[c].timeout
    ensures var t := After(s, Register(c, false));
            && In(t, c, Suspended) && Parked(t, c)
            && (CanTimeOut(t, c) <==> !s.calls[c].cancelled || Striking(s, c))
  {
    hide Inv, Waiter, CanTimeOut, IoInv, AddIn;
    RoomOk(s);
    StepKeeps(s, Register(c, false));
    AddEffect(s.io, s.calls[c].fd, s.calls[c].d, None, c, false);
    TimeoutIsLostExactly(After(s, Register(c, false)), c);
  }

  // ----- who wakes a parked call -------------------------------------------------------------------

  /** The steps that hand a waiter for the direction over: a callback of any call on the same
      place, or a cancellation or a report that covers it, unless epoll_ctl fails. */
  predicate Wakers(s: World, e: Event, fd: nat, d: Dir)
  {
    match e
    case CancelWait(a, fails) =>
      !fails && a < |s.alarms| && s.alarms[a].owner < |s.calls|
      && s.calls[s.alarms[a].owner].fd == fd && s.calls[s.alarms[a].owner].d == d
    case Other(call, fails) =>
      !fails && call.fd == fd && (call.CancelAll? || (call.Cancel? && call.d == d) || (call.Dispatch? && d in Real(call.report)))
    case _ => false
  }

  /** A parked fiber is woken by exactly these steps. In particular a late callback wakes
      another call's fiber exactly when both calls are for the same direction of the same
      descriptor and epoll_ctl does not fail. */
  lemma WhoWakes(s: World, e: Event, c: nat)
    requires Inv(s) && Possible(s, e) && Parked(s, c)
    ensures !Parked(After(s, e), c) <==> Wakers(s, e, s.calls[c].fd, s.calls[c].d)
    ensures Wakers(s, e, s.calls[c].fd, s.calls[c].d) ==> Wakes(After(s, e), c) == Wakes(s, c) + 1
  {
    hide IoInv, CallOk, AlarmOk, Registrations, CancelIn, AddIn, Waiter, Wakes, Real, IoRuns.After, Tried, Ran, Resumed;
    var x := s.calls[c];
    match e
    case CancelWait(a, fails) =>
      var y := s.calls[s.alarms[a].owner];
      CancelEffect(s.io, y.fd, y.d, fails);
      CountWakes(s, e, c);
    case Register(b, fails) => AddEffect(s.io, s.calls[b].fd, s.calls[b].d, None, b, fails);
    case Other(call, fails) =>
      OtherWakes(s.io, call, fails, x.fd, x.d);
      CountWakes(s, e, c);
    case _ => SamePlaces(s, e, c);
  }

  /** Steps of calls and timers leave descriptor and direction of every call alone. */
  lemma SamePlaces(s: World, e: Event, c: nat)
    requires Possible(s, e) && c < |s.calls| && !e.CancelWait? && !e.Register? && !e.Other?
    ensures After(s, e).io == s.io && c < |After(s, e).calls|
    ensures After(s, e).calls[c].fd == s.calls[c].fd && After(s, e).calls[c].d == s.calls[c].d
  {
  }

  lemma OtherWakes(io: Io, call: IoRuns.Call, fails: bool, fd: nat, d: Dir)
    requires IoInv(io) && |io.contexts| >= 2 && IoRuns.Fit(io, call) && !call.Del? && Waiter(io, fd, d).Some?
    ensures var t := IoRuns.After(io, call, fails);
            if !fails && call.fd == fd && (call.CancelAll? || (call.Cancel? && call.d == d) || (call.Dispatch? && d in Real(call.report)))
            then Waiter(t, fd, d) == None else Waiter(t, fd, d) == Waiter(io, fd, d)
  {
    hide IoInv, AddIn, CancelIn, CancelAllIn, DispatchIn, Real;
    match call
    case Add(f, e, cb, self) => AddEffect(io, f, e, cb, self, fails);
    case Cancel(f, e) => CancelEffect(io, f, e, fails);
    case CancelAll(f) =>
      CancelAllEffect(io, f, fails);
      assert d == READ || d == WRITE;
    case Dispatch(f, report) =>
      assert Real(report) * io.contexts[f].events == io.contexts[f].events * Real(report);
      DispatchEffect(io, f, report, fails);
      if f == fd && d in Real(report) {
        assert d in io.contexts[f].events * Real(report);
      }
  }

  /** A fiber that stops waiting was woken once. */
  lemma CountWakes(s: World, e: Event, c: nat)
    requires Inv(s) && Possible(s, e) && Parked(s, c) && c < |After(s, e).calls| && Parks(After(s, e), c) == Parks(s, c)
    ensures Wakes(After(s, e), c) + One(Parked(After(s, e), c)) == Wakes(s, c) + One(Parked(s, c))
  {
    hide Inv, After, Parked, Wakes, Parks;
    StepKeeps(s, e);
    assert c < |s.calls| by { ParkedIsCall(s, c); }
    WokenOncePerPark(s, c);
    WokenOncePerPark(After(s, e), c);
  }

  lemma ParkedIsCall(s: World, c: nat)
    requires Parked(s, c)
    ensures c < |s.calls|
  {
  }

  /** So a connection that parked can be answered without having been ready: a late callback of
      an earlier call for the same place wakes it, and it reports what the socket says. */
  lemma CrossWakeAnswersConnect(s: World, a: nat, c: nat)
    requires Inv(s) && Parked(s, c) && s.calls[c].kind.Connect? && !s.calls[c].cancelled
    requires Is(s, a, Cancelling) && s.alarms[a].owner != c && Wakers(s, CancelWait(a, false), s.calls[c].fd, s.calls[c].d)
    ensures Possible(s, CancelWait(a, false))
    ensures var t := After(s, CancelWait(a, false)); Possible(t, Resume(c)) && In(After(t, Resume(c)), c, Done(Answered))
  {
    hide Inv, Waiter, CancelIn, IoInv;
    RoomOk(s);
    var t := After(s, CancelWait(a, false));
    WhoWakes(s, CancelWait(a, false), c);
    StepKeeps(s, CancelWait(a, false));
    RoomOk(t);
    WokenOncePerPark(s, c);
    assert In(s, c, Suspended) by { ParkedIsSuspended(s, c); }
  }

  lemma ParkedIsSuspended(s: World, c: nat)
    requires Inv(s) && Parked(s, c)
    ensures In(s, c, Suspended)
  {
    hide IoInv, Waiter;
  }

  /** The loss can happen: a timer strikes between arming and registering, and the fiber parks
      with its timeout used up. */
  lemma EarlyTimeoutIsLost(io: Io, fd: nat, d: Dir) returns (es: seq<Event>)
    requires IoInv(io) && Waiter(io, fd, d).None?
    ensures Legal(World(io, [], []), es)
    ensures var t := AfterAll(World(io, [], []), es);
            |t.calls| == 1 && Lost(t, 0) && t.calls[0].timeout && t.alarms == [Alarm(0, Spent)]
  {
    hide IoInv, AddIn, Waiter;
    assert |io.contexts| >= 2 by { IoRuns.SizeOk(io); }
    var s0 := World(io, [], []);
    var e1, e2, e3, e4, e5, e6 :=
      Start(Transfer, fd, d, true), Try(0, Again), Expire(0), Callback(0), CancelWait(0, false), Register(0, false);
    var x := Call(Transfer, fd, d, true, Armed, true, Some(0), 0);
    var s1, s2 := After(s0, e1), After(After(s0, e1), e2);
    assert s2 == World(io, [x.(cancelled := false)], [Alarm(0, Live)]);
    var s3 := After(s2, e3);
    assert s3 == World(io, [x.(cancelled := false)], [Alarm(0, Queued)]);
    var s4 := After(s3, e4);
    assert s4 == World(io, [x], [Alarm(0, Cancelling)]);
    CancelEffect(io, fd, d, false);
    var s5 := After(s4, e5);
    assert s5 == World(io, [x], [Alarm(0, Spent)]);
    AddEffect(io, fd, d, None, 0, false);
    var s6 := After(s5, e6);
    es := [e1, e2, e3] + [e4, e5, e6];
    ThreeSteps(s3, e4, e5, e6, []);
    assert [e4, e5, e6] + [] == [e4, e5, e6];
    ThreeSteps(s0, e1, e2, e3, [e4, e5, e6]);
  }

  /** A run is its first three steps and the run after them. */
  lemma ThreeSteps(s: World, e1: Event, e2: Event, e3: Event, es: seq<Event>)
    requires Possible(s, e1) && Possible(After(s, e1), e2) && Possible(After(After(s, e1), e2), e3)
    requires Legal(After(After(After(s, e1), e2), e3), es)
    ensures Legal(s, [e1, e2, e3] + es)
    ensures AfterAll(s, [e1, e2, e3] + es) == AfterAll(After(After(After(s, e1), e2), e3), es)
  {
    hide Possible, After;
    var a, b := After(s, e1), After(After(s, e1), e2);
    assert ([e3] + es)[1..] == es && ([e2, e3] + es)[1..] == [e3] + es && ([e1, e2, e3] + es)[1..] == [e2, e3] + es;
    assert Legal(b, [e3] + es) && Legal(a, [e2, e3] + es);
    assert AfterAll(b, [e3] + es) == AfterAll(After(b, e3), es);
    assert AfterAll(a, [e2, e3] + es) == AfterAll(b, [e3] + es);
  }
}
