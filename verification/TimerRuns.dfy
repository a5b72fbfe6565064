/**
 Whole runs of the timer manager: any mix of add, cancel, refresh, reset, poll
 and expiry calls, with the history the guarantees speak about.
*/
module TimerRuns {
  import opened Wrappers
  import opened Timers

  datatype Op =
    | Add(id: Id, ms: nat, cb: Callback, recurring: bool)
    | Cancel(id: Id)
    | Refresh(id: Id)
    | Reset(id: Id, ms: nat, fromNow: bool)
    | Poll(deadline: Option<nat>)
    | Expire

  datatype Call = Call(op: Op, now: nat)

  /** The book together with its history: the latest time used, the deadline the
      last poll reported, whether the front hook ran since, how often each timer
      fired and was successfully cancelled, and when each recurring timer last
      fired (forgotten when it is reset). */
  datatype World = World(
    book: Book, clock: nat, reported: Option<nat>, hooked: bool,
    fires: map<Id, nat>, cancels: map<Id, nat>, lastFired: map<Id, nat>)

  ghost predicate Enabled(w: World, c: Call)
  {
    match c.op
    case Add(id, _, _, _) => id !in w.book.timers
    case Cancel(id) => id in w.book.timers
    case Refresh(id) => id in w.book.timers
    case Reset(id, _, _) => id in w.book.timers
    case Poll(deadline) =>
      && (deadline.None? <==> Idle(w.book.timers))
      && (deadline.Some? ==> exists id :: Front(w.book.timers, id) && w.book.timers[id].next == deadline.value)
    case Expire => true
  }

  ghost function StepBook(b: Book, c: Call): Book
    requires c.op.Reset? ==> c.op.id in b.timers
  {
    match c.op
    case Add(id, ms, cb, recurring) => PutIn(b, id, Timer(Plus(c.now, ms), ms, recurring, Some(cb)))
    case Cancel(id) => CancelIn(b, id)
    case Refresh(id) => RefreshIn(b, id, c.now)
    case Reset(id, ms, fromNow) => ResetIn(b, id, ms, fromNow, c.now)
    case Poll(_) => b.(tickled := false)
    case Expire => ExpireIn(b, c.now)
  }

  ghost function Count(m: map<Id, nat>, id: Id): nat
  {
    if id in m then m[id] else 0
  }

  ghost function Step(w: World, c: Call): World
    requires Enabled(w, c)
  {
    var b := StepBook(w.book, c);
    World(
      b, c.now,
      if c.op.Poll? then c.op.deadline else w.reported,
      if c.op.Poll? then false else w.hooked || (b.tickled && !w.book.tickled),
      if c.op.Expire? then
        map id | id in b.timers :: Count(w.fires, id) + if Due(w.book, c.now, id) then 1 else 0
      else w.fires,
      if c.op.Cancel? && Callable(w.book.timers[c.op.id]) then
        w.cancels[c.op.id := Count(w.cancels, c.op.id) + 1]
      else w.cancels,
      if c.op.Expire? then
        map id | id in b.timers && (Due(w.book, c.now, id) || id in w.lastFired) ::
          if Due(w.book, c.now, id) then c.now else w.lastFired[id]
      else if c.op.Reset? then w.lastFired - {c.op.id}
      else w.lastFired)
  }

  ghost predicate Runs(w: World, calls: seq<Call>)
    decreases |calls|
  {
    calls == [] || (Enabled(w, calls[0]) && Runs(Step(w, calls[0]), calls[1..]))
  }

  ghost function After(w: World, calls: seq<Call>): World
    requires Runs(w, calls)
    decreases |calls|
  {
    if calls == [] then w else After(Step(w, calls[0]), calls[1..])
  }

  ghost function Start(now: nat): World
  {
    World(Book(map[], false, now), now, None, false, map[], map[], map[])
  }

  // ----- a one-shot timer ends once -----------------------------------------------

  /** A one-shot timer without a callback has been fired or successfully cancelled,
      one of the two and once; one with a callback neither. A recurring timer is
      successfully cancelled at most once, and then it has no callback. */
  ghost predicate EndsOnce(w: World)
  {
    && w.fires.Keys <= w.book.timers.Keys && w.cancels.Keys <= w.book.timers.Keys
    && forall id :: id in w.book.timers ==> Settled(w, id)
  }

  /** One timer's account in the history. */
  ghost predicate Settled(w: World, id: Id)
    requires id in w.book.timers
  {
    var t := w.book.timers[id];
    Count(w.cancels, id) + (if t.recurring then 0 else Count(w.fires, id)) == if t.cb.Some? then 0 else 1
  }

  lemma SettledExpire(w: World, c: Call, id: Id)
    requires EndsOnce(w) && c.op.Expire? && id in w.book.timers
    ensures id in Step(w, c).book.timers && Settled(Step(w, c), id)
  {
    hide Plus, Minus, Front, Rollover;
    assert Settled(w, id);
  }

  lemma SettledOther(w: World, c: Call, id: Id)
    requires EndsOnce(w) && Enabled(w, c) && !c.op.Expire? && id in Step(w, c).book.timers
    ensures Settled(Step(w, c), id)
  {
    hide Plus, Minus, Front, Rollover;
    if id in w.book.timers {
      assert Settled(w, id);
    }
  }

  lemma EndsOnceStep(w: World, c: Call)
    requires EndsOnce(w) && Enabled(w, c)
    ensures EndsOnce(Step(w, c))
  {
    hide Plus, Minus, Front, Rollover;
    var w' := Step(w, c);
    forall id | id in w'.book.timers ensures Settled(w', id) {
      if c.op.Expire? {
        SettledExpire(w, c, id);
      } else {
        SettledOther(w, c, id);
      }
    }
  }

  lemma {:induction false} EndsOnceAlways(w: World, calls: seq<Call>)
    requires EndsOnce(w) && Runs(w, calls)
    ensures EndsOnce(After(w, calls))
    decreases |calls|
  {
    hide Enabled, Step, EndsOnce;
    if calls != [] {
      EndsOnceStep(w, calls[0]);
      EndsOnceAlways(Step(w, calls[0]), calls[1..]);
    }
  }

  /** In every run, whatever the clock does, a one-shot timer's firings and
      successful cancellations add up to at most one. */
  lemma OneShotEndsAtMostOnce(now: nat, calls: seq<Call>, id: Id)
    requires Runs(Start(now), calls)
    ensures var w := After(Start(now), calls);
            id in w.book.timers && !w.book.timers[id].recurring ==>
              Count(w.fires, id) + Count(w.cancels, id) <= 1
              && (Live(w.book.timers, id) <==> Count(w.fires, id) + Count(w.cancels, id) == 0)
  {
    EndsOnceAlways(Start(now), calls);
  }

  /** A timer in the set with an empty callback can be neither cancelled nor moved: it leaves
      by expiry only. */
  lemma EmptyLeavesByExpiry(w: World, c: Call, id: Id)
    requires Enabled(w, c) && Live(w.book.timers, id) && w.book.timers[id].cb == Some(Empty) && !c.op.Expire?
    ensures id in Step(w, c).book.timers && Step(w, c).book.timers[id] == w.book.timers[id]
    ensures c.op.Cancel? && c.op.id == id ==> Step(w, c).cancels == w.cancels
  {
  }

  // ----- no lost wake-up -----------------------------------------------------------

  /** The clock does not go back and no deadline passes the largest 64-bit time. */
  ghost predicate Calm(w: World, c: Call)
    requires Enabled(w, c)
  {
    && w.clock <= c.now < WRAP
    && match c.op
       case Add(_, ms, _, _) => c.now + ms < WRAP
       case Refresh(id) => c.now + w.book.timers[id].ms < WRAP
       case Reset(_, ms, _) => c.now + ms < WRAP
       case Expire => forall id :: Due(w.book, c.now, id) ==> c.now + w.book.timers[id].ms < WRAP
       case _ => true
  }

  ghost predicate CalmRun(w: World, calls: seq<Call>)
    decreases |calls|
  {
    calls == [] || (Enabled(w, calls[0]) && Calm(w, calls[0]) && CalmRun(Step(w, calls[0]), calls[1..]))
  }

  lemma {:induction false} CalmRunsRun(w: World, calls: seq<Call>)
    requires CalmRun(w, calls)
    ensures Runs(w, calls)
    decreases |calls|
  {
    hide Enabled, Step, Calm;
    if calls != [] {
      CalmRunsRun(Step(w, calls[0]), calls[1..]);
    }
  }

  /** Every live timer was set, `ms` before its deadline, no later than now. */
  ghost predicate Anchored(w: World)
  {
    && w.book.previous <= w.clock < WRAP
    && forall id :: Live(w.book.timers, id) ==>
         var t := w.book.timers[id];
         t.ms <= t.next < WRAP && t.next - t.ms <= w.clock
  }

  /** Either the front hook ran since the last poll, or every live deadline is at
      least the reported one (and with none reported there is no live timer). */
  ghost predicate NoLostWakeUp(w: World)
  {
    if w.book.tickled then w.hooked
    else forall id :: Live(w.book.timers, id) ==> w.reported.Some? && w.reported.value <= w.book.timers[id].next
  }

  ghost predicate Awake(w: World)
  {
    Anchored(w) && NoLostWakeUp(w)
  }

  lemma NoWrap(a: nat, b: nat)
    requires a + b < WRAP
    ensures Plus(a, b) == a + b
  {
  }

  lemma NoBorrow(a: nat, b: nat)
    requires b <= a < WRAP
    ensures Minus(a, b) == a - b
  {
  }

  lemma PlainPlus(w: World, c: Call)
    requires Awake(w) && Enabled(w, c) && Calm(w, c)
    ensures c.op.Add? ==> Plus(c.now, c.op.ms) == c.now + c.op.ms
    ensures c.op.Refresh? ==> Plus(c.now, w.book.timers[c.op.id].ms) == c.now + w.book.timers[c.op.id].ms
    ensures c.op.Reset? && Live(w.book.timers, c.op.id) ==>
              var t := w.book.timers[c.op.id];
              ResetTimer(t, c.op.ms, c.op.fromNow, c.now).next == (if c.op.fromNow then c.now else t.next - t.ms) + c.op.ms
    ensures c.op.Expire? ==> !Rollover(w.book.previous, c.now)
    ensures c.op.Expire? ==> forall id :: Due(w.book, c.now, id) ==> Plus(c.now, w.book.timers[id].ms) == c.now + w.book.timers[id].ms
  {
    match c.op
    case Add(_, ms, _, _) => NoWrap(c.now, ms);
    case Refresh(id) => NoWrap(c.now, w.book.timers[id].ms);
    case Reset(id, ms, fromNow) =>
      NoWrap(c.now, ms);
      if Live(w.book.timers, id) {
        var t := w.book.timers[id];
        NoBorrow(t.next, t.ms);
        NoWrap(t.next - t.ms, ms);
      }
    case Expire =>
      forall id | Due(w.book, c.now, id) ensures Plus(c.now, w.book.timers[id].ms) == c.now + w.book.timers[id].ms {
        NoWrap(c.now, w.book.timers[id].ms);
      }
    case _ =>
  }

  /** A timer put in the book behind another one leaves the earliest deadline alone. */
  lemma PutInWakes(b: Book, id: Id, t: Timer, reported: Option<nat>)
    requires !b.tickled && t.cb.Some?
    requires forall j :: Live(b.timers, j) ==> reported.Some? && reported.value <= b.timers[j].next
    ensures var b' := PutIn(b, id, t);
            b'.tickled || forall j :: Live(b'.timers, j) ==> reported.Some? && reported.value <= b'.timers[j].next
  {
    var timers := b.timers[id := t];
    if !Front(timers, id) {
      var j :| Live(timers, j) && j != id && !KeyLess(KeyOf(timers, id), KeyOf(timers, j));
      assert Live(b.timers, j);
    }
  }

  lemma AnchoredStep(w: World, c: Call)
    requires Awake(w) && Enabled(w, c) && Calm(w, c)
    ensures Anchored(Step(w, c))
  {
    PlainPlus(w, c);
    hide Plus, Minus, Front, Rollover, NoLostWakeUp;
  }

  /** A calm step loses nothing: a live timer's new deadline is not before its old one. */
  lemma WakeStep(w: World, c: Call)
    requires Awake(w) && Enabled(w, c) && Calm(w, c)
    ensures NoLostWakeUp(Step(w, c))
  {
    PlainPlus(w, c);
    assert !Loses(w, c) by {
      hide Plus, Minus, Rollover;
    }
    WakeUpLostExactly(w, c);
  }

  lemma {:induction false} AwakeAlways(w: World, calls: seq<Call>)
    requires Awake(w) && CalmRun(w, calls)
    ensures Runs(w, calls) && Awake(After(w, calls))
    decreases |calls|
  {
    hide Enabled, Step, Calm, Anchored, NoLostWakeUp;
    CalmRunsRun(w, calls);
    if calls != [] {
      AnchoredStep(w, calls[0]);
      WakeStep(w, calls[0]);
      AwakeAlways(Step(w, calls[0]), calls[1..]);
    }
  }

  /** Under a clock that does not go back, through any mix of calls: a poller that
      sleeps until the deadline it was told is never late without having been
      poked, since either the hook ran or no live deadline is earlier. */
  lemma NoWakeUpIsLost(now: nat, calls: seq<Call>)
    requires now < WRAP && CalmRun(Start(now), calls)
    ensures Runs(Start(now), calls)
    ensures var w := After(Start(now), calls);
            (w.book.tickled && w.hooked)
            || forall id :: Live(w.book.timers, id) ==> w.reported.Some? && w.reported.value <= w.book.timers[id].next
  {
    AwakeAlways(Start(now), calls);
  }

  /** A step that loses the wake-up: with a deadline reported and the flag down, a live timer
      is refreshed, or a due recurring one fired, to a new deadline before the reported one. */
  ghost predicate Loses(w: World, c: Call)
    requires Enabled(w, c)
  {
    && !w.book.tickled && w.reported.Some?
    && match c.op
       case Refresh(id) => Callable(w.book.timers[id]) && Plus(c.now, w.book.timers[id].ms) < w.reported.value
       case Expire => exists id :: Due(w.book, c.now, id) && Rearms(w.book.timers[id], c.now, w.reported.value)
       case _ => false
  }

  /** A recurring timer whose next deadline comes before `t`. */
  predicate Rearms(x: Timer, now: nat, t: nat) { x.recurring && Plus(now, x.ms) < t }

  /** Whatever the clock does, a step keeps the guarantee if and only if it is not such a one. */
  lemma WakeUpLostExactly(w: World, c: Call)
    requires NoLostWakeUp(w) && Enabled(w, c)
    ensures NoLostWakeUp(Step(w, c)) <==> !Loses(w, c)
  {
    hide Plus, Minus, Rollover;
    var b, t := w.book, Step(w, c).book;
    if !b.tickled {
      match c.op
      case Add(id, ms, cb, recurring) =>
        PutInWakes(b, id, Timer(Plus(c.now, ms), ms, recurring, Some(cb)), w.reported);
      case Reset(id, ms, fromNow) =>
        if Callable(b.timers[id]) {
          PutInWakes(b, id, ResetTimer(b.timers[id], ms, fromNow, c.now), w.reported);
        }
      case Refresh(id) =>
        assert Live(t.timers, id) <==> Live(b.timers, id);
      case Poll(deadline) => PollIsEarliest(w, c);
      case Expire => ExpireWakes(w, c);
      case Cancel(_) =>
    } else if c.op.Poll? {
      PollIsEarliest(w, c);
    }
  }

  lemma PollIsEarliest(w: World, c: Call)
    requires Enabled(w, c) && c.op.Poll?
    ensures NoLostWakeUp(Step(w, c))
  {
    var b, deadline := w.book, c.op.deadline;
    forall j | Live(b.timers, j) ensures deadline.Some? && deadline.value <= b.timers[j].next {
      assert !Idle(b.timers);
      var id :| Front(b.timers, id) && b.timers[id].next == deadline.value;
      assert j != id ==> KeyLess(KeyOf(b.timers, id), KeyOf(b.timers, j));
    }
  }

  lemma ExpireWakes(w: World, c: Call)
    requires NoLostWakeUp(w) && Enabled(w, c) && c.op.Expire? && !w.book.tickled
    ensures NoLostWakeUp(Step(w, c)) <==> !Loses(w, c)
  {
    hide Plus, Minus, Rollover;
    var b, t := w.book, Step(w, c).book;
    forall id
      ensures Live(t.timers, id) <==> Live(b.timers, id) && (Due(b, c.now, id) ==> b.timers[id].recurring)
    {
    }
    if id :| Due(b, c.now, id) && w.reported.Some? && Rearms(b.timers[id], c.now, w.reported.value) {
      assert Live(t.timers, id) && t.timers[id].next == Plus(c.now, b.timers[id].ms);
    }
  }

  ghost predicate AwakeThroughout(w: World, calls: seq<Call>)
    requires Runs(w, calls)
    decreases |calls|
  {
    NoLostWakeUp(w) && (calls == [] || AwakeThroughout(Step(w, calls[0]), calls[1..]))
  }

  ghost predicate LosesNowhere(w: World, calls: seq<Call>)
    requires Runs(w, calls)
    decreases |calls|
  {
    calls == [] || (!Loses(w, calls[0]) && LosesNowhere(Step(w, calls[0]), calls[1..]))
  }

  /** A run keeps the guarantee throughout if and only if it takes no losing step, under any clock. */
  lemma {:induction false} RunsAwakeExactly(w: World, calls: seq<Call>)
    requires Runs(w, calls) && NoLostWakeUp(w)
    ensures AwakeThroughout(w, calls) <==> LosesNowhere(w, calls)
    decreases |calls|
  {
    hide Enabled, Step, Loses, NoLostWakeUp;
    if calls != [] {
      WakeUpLostExactly(w, calls[0]);
      if NoLostWakeUp(Step(w, calls[0])) {
        RunsAwakeExactly(Step(w, calls[0]), calls[1..]);
      } else {
        NotAwake(Step(w, calls[0]), calls[1..]);
      }
    }
  }

  lemma NotAwake(w: World, calls: seq<Call>)
    requires Runs(w, calls) && !NoLostWakeUp(w)
    ensures !AwakeThroughout(w, calls)
  {
  }

  /** Refreshing needs the clock: if it goes back an hour less a millisecond, a
      refreshed timer moves in front of the reported deadline with no hook. */
  lemma BackwardClockLosesWakeUp()
    ensures var calls := [Call(Add(1, 10, Function(7), false), 3_600_000), Call(Poll(Some(3_600_010)), 3_600_000), Call(Refresh(1), 1)];
            && Runs(Start(3_600_000), calls)
            && !NoLostWakeUp(After(Start(3_600_000), calls))
  {
    var w0 := Start(3_600_000);
    var c1, c2, c3 := Call(Add(1, 10, Function(7), false), 3_600_000), Call(Poll(Some(3_600_010)), 3_600_000), Call(Refresh(1), 1);
    var w1 := Step(w0, c1);
    assert w1.book.timers == map[1 := Timer(3_600_010, 10, false, Some(Function(7)))];
    assert Front(w1.book.timers, 1);
    assert Live(w1.book.timers, 1);
    assert Enabled(w1, c2);
    var w2 := Step(w1, c2);
    assert Enabled(w2, c3);
    var w3 := Step(w2, c3);
    assert w3.book.timers[1].next == 11 && Live(w3.book.timers, 1);
    assert !NoLostWakeUp(w3);
    assert [c1, c2, c3][1..] == [c2, c3] && [c2, c3][1..] == [c3] && [c3][1..] == [];
    assert Runs(w3, []) && After(w3, []) == w3;
    assert Runs(w2, [c3]) && After(w2, [c3]) == w3;
    assert Runs(w1, [c2, c3]) && After(w1, [c2, c3]) == w3;
  }

  // ----- firings a period apart -----------------------------------------------------

  /** A recurring timer that fired and was not reset since is due a period later at the earliest. */
  ghost predicate Spaced(w: World)
  {
    forall id :: id in w.lastFired && Live(w.book.timers, id) && w.book.timers[id].recurring ==>
      w.lastFired[id] <= w.clock && w.lastFired[id] + w.book.timers[id].ms <= w.book.timers[id].next
  }

  lemma SpacedStep(w: World, c: Call)
    requires Awake(w) && Spaced(w) && w.lastFired.Keys <= w.book.timers.Keys && Enabled(w, c) && Calm(w, c)
    ensures Spaced(Step(w, c)) && Step(w, c).lastFired.Keys <= Step(w, c).book.timers.Keys
  {
    if c.op.Expire? {
      SpacedExpire(w, c);
    } else {
      SpacedOther(w, c);
    }
  }

  lemma SpacedExpire(w: World, c: Call)
    requires Awake(w) && Spaced(w) && w.lastFired.Keys <= w.book.timers.Keys && Enabled(w, c) && Calm(w, c) && c.op.Expire?
    ensures Spaced(Step(w, c)) && Step(w, c).lastFired.Keys <= Step(w, c).book.timers.Keys
  {
    PlainPlus(w, c);
    hide Plus, Minus, Front, Rollover, NoLostWakeUp;
  }

  lemma SpacedOther(w: World, c: Call)
    requires Awake(w) && Spaced(w) && w.lastFired.Keys <= w.book.timers.Keys && Enabled(w, c) && Calm(w, c) && !c.op.Expire?
    ensures Spaced(Step(w, c)) && Step(w, c).lastFired.Keys <= Step(w, c).book.timers.Keys
  {
    PlainPlus(w, c);
    hide Plus, Minus, Front, Rollover, NoLostWakeUp, Due;
  }

  lemma {:induction false} SpacedAlways(w: World, calls: seq<Call>)
    requires Awake(w) && Spaced(w) && w.lastFired.Keys <= w.book.timers.Keys && CalmRun(w, calls)
    ensures Runs(w, calls) && Spaced(After(w, calls)) && Awake(After(w, calls))
    decreases |calls|
  {
    hide Enabled, Step, Calm, Anchored, NoLostWakeUp, Spaced;
    CalmRunsRun(w, calls);
    if calls != [] {
      AnchoredStep(w, calls[0]);
      WakeStep(w, calls[0]);
      SpacedStep(w, calls[0]);
      SpacedAlways(Step(w, calls[0]), calls[1..]);
    }
  }

  /** In every calm run, an expiry fires a recurring timer that fired before, and
      was not reset since, no sooner than one period after that firing. */
  lemma FiringsAPeriodApart(start: nat, calls: seq<Call>, now: nat, id: Id)
    requires start < WRAP && CalmRun(Start(start), calls)
    ensures Runs(Start(start), calls)
    ensures var w := After(Start(start), calls);
            w.clock <= now && Due(w.book, now, id) && w.book.timers[id].recurring && id in w.lastFired ==>
              w.lastFired[id] + w.book.timers[id].ms <= now
  {
    SpacedAlways(Start(start), calls);
  }

  // ----- a refreshed timer waits its period ----------------------------------------------------

  /** The timer, while it is in the set, is not due before `deadline`. */
  ghost predicate NotBefore(w: World, id: Id, deadline: nat)
  {
    id in w.book.timers && (Live(w.book.timers, id) ==> deadline <= w.book.timers[id].next)
  }

  /** Calls at times before `deadline`, none of which gives the timer another period. */
  predicate Early(calls: seq<Call>, id: Id, deadline: nat)
  {
    forall i :: 0 <= i < |calls| ==> calls[i].now < deadline && !(calls[i].op.Reset? && calls[i].op.id == id)
  }

  lemma NotBeforeStep(w: World, c: Call, id: Id, deadline: nat)
    requires Awake(w) && Enabled(w, c) && Calm(w, c) && NotBefore(w, id, deadline) && c.now < deadline
    requires !(c.op.Reset? && c.op.id == id)
    ensures NotBefore(Step(w, c), id, deadline) && Count(Step(w, c).fires, id) == Count(w.fires, id)
  {
    PlainPlus(w, c);
    hide Plus, Minus, Front, Rollover, NoLostWakeUp;
    if c.op.Expire? {
      assert !Due(w.book, c.now, id);
    }
  }

  lemma {:induction false} NotFiredEarly(w: World, calls: seq<Call>, id: Id, deadline: nat)
    requires Awake(w) && CalmRun(w, calls) && NotBefore(w, id, deadline) && Early(calls, id, deadline)
    ensures Runs(w, calls) && Count(After(w, calls).fires, id) == Count(w.fires, id)
    decreases |calls|
  {
    hide Enabled, Step, Calm, Anchored, NoLostWakeUp, NotBefore, Count;
    CalmRunsRun(w, calls);
    if calls != [] {
      AnchoredStep(w, calls[0]);
      WakeStep(w, calls[0]);
      NotBeforeStep(w, calls[0], id, deadline);
      assert Early(calls[1..], id, deadline) by {
        forall i | 0 <= i < |calls[1..]|
          ensures calls[1..][i].now < deadline && !(calls[1..][i].op.Reset? && calls[1..][i].op.id == id)
        {
          assert calls[1..][i] == calls[i + 1];
        }
      }
      NotFiredEarly(Step(w, calls[0]), calls[1..], id, deadline);
    }
  }

  /** In a calm run, a timer refreshed or set at `now` with period `ms` has the deadline
      `now + ms`, and no expiry before that fires it. */
  lemma RefreshDelays(w: World, c: Call, id: Id, calls: seq<Call>)
    requires Awake(w) && Enabled(w, c) && Calm(w, c)
    requires (c.op.Refresh? && c.op.id == id && Callable(w.book.timers[id])) || (c.op.Add? && c.op.id == id)
    requires CalmRun(Step(w, c), calls) && Early(calls, id, c.now + Step(w, c).book.timers[id].ms)
    ensures Step(w, c).book.timers[id].next == c.now + Step(w, c).book.timers[id].ms
    ensures Runs(Step(w, c), calls) && Count(After(Step(w, c), calls).fires, id) == Count(Step(w, c).fires, id)
  {
    hide Minus, Front, Rollover, NoLostWakeUp, CalmRun;
    PlainPlus(w, c);
    AnchoredStep(w, c);
    WakeStep(w, c);
    NotFiredEarly(Step(w, c), calls, id, c.now + Step(w, c).book.timers[id].ms);
  }
}
