/**
 The timer manager: timers in an index ordered by (deadline, address), with
 cancel, refresh, reset, batch expiry, recurring timers and a wake-up flag.

 A timer object is named by its address; addresses are whatever the allocator
 chose. Times are unsigned 64-bit milliseconds.
*/
module Timers {
  import opened Wrappers

  type Id = nat
  /** A std::function, which may be empty. */
  datatype Callback = Empty | Function(code: nat)

  const WRAP: nat := 0x1_0000_0000_0000_0000
  const HOUR: nat := 60 * 60 * 1000

  function Plus(a: nat, b: nat): nat { (a + b) % WRAP }

  function Minus(a: nat, b: nat): nat { (a - b) % WRAP }

  /** A timer out of the set has no callback; one in the set has the one it was given. */
  datatype Timer = Timer(next: nat, ms: nat, recurring: bool, cb: Option<Callback>)

  /** The manager's fields; `timers` holds every timer object created so far. */
  datatype State = State(timers: map<Id, Timer>, index: seq<Id>, tickled: bool, previous: nat)

  // ----- the comparator ---------------------------------------------------------

  datatype Key = Key(next: nat, address: Id)

  predicate KeyLess(a: Key, b: Key)
  {
    a.next < b.next || (a.next == b.next && a.address < b.address)
  }

  /** Timer::Comparator on possibly null pointers. */
  predicate Compare(a: Option<Key>, b: Option<Key>)
  {
    if a.None? && b.None? then false
    else if a.None? then true
    else if b.None? then false
    else KeyLess(a.value, b.value)
  }

  /** The comparator is a strict total order, as an ordered set needs. */
  lemma CompareIsStrictTotal(a: Option<Key>, b: Option<Key>, c: Option<Key>)
    ensures !Compare(a, a)
    ensures Compare(a, b) && Compare(b, c) ==> Compare(a, c)
    ensures a != b ==> Compare(a, b) || Compare(b, a)
  {
  }

  function KeyOf(timers: map<Id, Timer>, id: Id): Key
    requires id in timers
  {
    Key(timers[id].next, id)
  }

  // ----- the ordered index ----------------------------------------------------------

  ghost predicate Known(timers: map<Id, Timer>, index: seq<Id>)
  {
    forall i :: 0 <= i < |index| ==> index[i] in timers
  }

  ghost predicate Sorted(timers: map<Id, Timer>, index: seq<Id>)
    requires Known(timers, index)
  {
    forall i, j :: 0 <= i < j < |index| ==> KeyLess(KeyOf(timers, index[i]), KeyOf(timers, index[j]))
  }

  /** The first place whose element is not before `key`, as `lower_bound` finds it. */
  function LowerBound(timers: map<Id, Timer>, index: seq<Id>, key: Key): (p: nat)
    requires Known(timers, index)
    ensures p <= |index|
    ensures forall i :: 0 <= i < p ==> KeyLess(KeyOf(timers, index[i]), key)
    ensures p < |index| ==> !KeyLess(KeyOf(timers, index[p]), key)
  {
    if index == [] || !KeyLess(KeyOf(timers, index[0]), key) then 0
    else
      var p := LowerBound(timers, index[1..], key);
      assert forall i :: 1 <= i < p + 1 ==> index[i] == index[1..][i - 1];
      p + 1
  }

  /** `find`: the place of an equivalent element, or the end. */
  function Find(timers: map<Id, Timer>, index: seq<Id>, id: Id): (p: nat)
    requires Known(timers, index) && id in timers
    ensures p <= |index|
  {
    var p := LowerBound(timers, index, KeyOf(timers, id));
    if p < |index| && !KeyLess(KeyOf(timers, id), KeyOf(timers, index[p])) then p else |index|
  }

  function Erase(index: seq<Id>, p: nat): seq<Id>
    requires p < |index|
  {
    index[..p] + index[p + 1..]
  }

  /** `insert` of a timer that is not in the index: the new index and its place. */
  function Insert(timers: map<Id, Timer>, index: seq<Id>, id: Id): (r: (seq<Id>, nat))
    requires Known(timers, index) && id in timers
    ensures r.1 <= |index| && r.0 == index[..r.1] + [id] + index[r.1..]
  {
    var p := LowerBound(timers, index, KeyOf(timers, id));
    (index[..p] + [id] + index[p..], p)
  }

  /** What every operation keeps: the index is ordered, and it holds exactly the
      timers that still have a callback. */
  ghost predicate Inv(s: State)
  {
    && Known(s.timers, s.index) && Sorted(s.timers, s.index)
    && forall id :: id in s.timers ==> (id in s.index <==> s.timers[id].cb.Some?)
  }

  lemma SortedDistinct(timers: map<Id, Timer>, index: seq<Id>)
    requires Known(timers, index) && Sorted(timers, index)
    ensures forall i, j :: 0 <= i < |index| && 0 <= j < |index| && index[i] == index[j] ==> i == j
  {
    forall i, j | 0 <= i < j < |index| ensures index[i] != index[j] {
      assert KeyLess(KeyOf(timers, index[i]), KeyOf(timers, index[j]));
    }
  }

  /** The search by key always finds the timer itself. */
  lemma FindsItself(timers: map<Id, Timer>, index: seq<Id>, id: Id)
    requires Known(timers, index) && Sorted(timers, index) && id in index
    ensures Find(timers, index, id) < |index| && index[Find(timers, index, id)] == id
  {
    var k :| 0 <= k < |index| && index[k] == id;
    var p := LowerBound(timers, index, KeyOf(timers, id));
    assert p == k;
  }

  lemma EraseSorted(timers: map<Id, Timer>, index: seq<Id>, p: nat)
    requires Known(timers, index) && Sorted(timers, index) && p < |index|
    ensures Known(timers, Erase(index, p)) && Sorted(timers, Erase(index, p))
    ensures forall id :: id in Erase(index, p) <==> id in index && id != index[p]
  {
    SortedDistinct(timers, index);
    var r := Erase(index, p);
    forall id ensures id in r <==> id in index && id != index[p] {
      if id in index && id != index[p] {
        var k :| 0 <= k < |index| && index[k] == id;
        assert r[if k < p then k else k - 1] == id;
      }
    }
  }

  lemma InsertSorted(timers: map<Id, Timer>, index: seq<Id>, id: Id)
    requires Known(timers, index) && Sorted(timers, index) && id in timers && id !in index
    ensures var r := Insert(timers, index, id);
            Known(timers, r.0) && Sorted(timers, r.0) && forall x :: x in r.0 <==> x in index || x == id
  {
    hide LowerBound;
    var (r, p) := Insert(timers, index, id);
    assert forall i :: 0 <= i < |r| ==> r[i] == if i < p then index[i] else if i == p then id else index[i - 1];
    InsertMembers(index, r, p, id);
    forall i, j | 0 <= i < j < |r| ensures KeyLess(KeyOf(timers, r[i]), KeyOf(timers, r[j])) {
      if i == p {
        assert !KeyLess(KeyOf(timers, index[p]), KeyOf(timers, id)) && index[p] != id;
        if j > p + 1 {
          assert KeyLess(KeyOf(timers, index[p]), KeyOf(timers, index[j - 1]));
        }
      }
    }
  }

  lemma InsertMembers(index: seq<Id>, r: seq<Id>, p: nat, id: Id)
    requires p <= |index| && r == index[..p] + [id] + index[p..]
    ensures forall x :: x in r <==> x in index || x == id
  {
    assert index == index[..p] + index[p..];
  }

  /** A change to a timer outside the index does not disturb it. */
  lemma OutsideUpdate(timers: map<Id, Timer>, index: seq<Id>, id: Id, t: Timer)
    requires Known(timers, index) && Sorted(timers, index) && id !in index
    ensures Known(timers[id := t], index) && Sorted(timers[id := t], index)
  {
  }

  // ----- the plain book of timers -------------------------------------------------------

  /** The manager without its index: the timers, the wake-up flag and the last time seen. */
  datatype Book = Book(timers: map<Id, Timer>, tickled: bool, previous: nat)

  ghost predicate Live(timers: map<Id, Timer>, id: Id)
  {
    id in timers && timers[id].cb.Some?
  }

  /** What cancel, refresh and reset test: there is a callback to call. */
  predicate Callable(t: Timer) { t.cb.Some? && t.cb.value.Function? }

  /** `id` comes before every other live timer. */
  ghost predicate Front(timers: map<Id, Timer>, id: Id)
  {
    Live(timers, id) && forall j :: Live(timers, j) && j != id ==> KeyLess(KeyOf(timers, id), KeyOf(timers, j))
  }

  ghost predicate Idle(timers: map<Id, Timer>)
  {
    forall id :: !Live(timers, id)
  }

  ghost function CancelIn(b: Book, id: Id): Book
  {
    if id in b.timers && Callable(b.timers[id]) then b.(timers := b.timers[id := b.timers[id].(cb := None)]) else b
  }

  ghost function RefreshIn(b: Book, id: Id, now: nat): Book
  {
    if id in b.timers && Callable(b.timers[id]) then
      b.(timers := b.timers[id := b.timers[id].(next := Plus(now, b.timers[id].ms))])
    else b
  }

  /** Puts a live timer in the book and raises the flag when it lands in front. */
  ghost function PutIn(b: Book, id: Id, t: Timer): Book
  {
    var timers := b.timers[id := t];
    b.(timers := timers, tickled := b.tickled || Front(timers, id))
  }

  function ResetTimer(t: Timer, ms: nat, fromNow: bool, now: nat): Timer
  {
    t.(ms := ms, next := Plus(if fromNow then now else Minus(t.next, t.ms), ms))
  }

  ghost function ResetIn(b: Book, id: Id, ms: nat, fromNow: bool, now: nat): Book
    requires id in b.timers
  {
    if (ms == b.timers[id].ms && !fromNow) || !Callable(b.timers[id]) then b
    else PutIn(b, id, ResetTimer(b.timers[id], ms, fromNow, now))
  }

  predicate Rollover(previous: nat, now: nat)
  {
    now < previous && now < Minus(previous, HOUR)
  }

  /** A rollover is a step back: of any size while the last time is under an hour, of more
      than an hour after that. */
  lemma RolloverExact(previous: nat, now: nat)
    requires previous < WRAP
    ensures Rollover(previous, now) <==> now < previous && (previous < HOUR || now + HOUR < previous)
  {
  }

  /** The timers one expiry takes: those due, or all of them after a rollover. */
  ghost predicate Due(b: Book, now: nat, id: Id)
  {
    Live(b.timers, id) && (Rollover(b.previous, now) || b.timers[id].next <= now)
  }

  ghost function AfterFiring(t: Timer, now: nat): Timer
  {
    if t.recurring then t.(next := Plus(now, t.ms)) else t.(cb := None)
  }

  ghost function ExpireIn(b: Book, now: nat): Book
  {
    if Idle(b.timers) then b
    else b.(timers := map id | id in b.timers :: if Due(b, now, id) then AfterFiring(b.timers[id], now) else b.timers[id],
            previous := now)
  }

  // ----- the manager -----------------------------------------------------------------------

  class TimerManager {
    var timers: map<Id, Timer>
    var index: seq<Id>
    var tickled: bool
    var previousTime: nat

    ghost predicate Valid()
      reads this
    {
      Inv(State(timers, index, tickled, previousTime))
    }

    ghost function Abs(): Book
      reads this
    {
      Book(timers, tickled, previousTime)
    }

    constructor (now: nat)
      ensures Valid() && Abs() == Book(map[], false, now)
    {
      timers, index, tickled, previousTime := map[], [], false, now;
    }

    /** Timer::cancel; the search by key always finds the element to erase. */
    method Cancel(id: Id) returns (ok: bool)
      requires Valid() && id in timers
      modifies this
      ensures Valid() && Abs() == CancelIn(old(Abs()), id)
      ensures ok ==> timers == old(timers)[id := old(timers)[id].(cb := None)]
      ensures !ok ==> timers == old(timers)
      ensures tickled == old(tickled) && previousTime == old(previousTime)
      ensures ok == Callable(old(timers)[id])
    {
      if !Callable(timers[id]) {
        return false;
      }
      KeyKept(timers, index, id, timers[id].(cb := None));
      timers := timers[id := timers[id].(cb := None)];
      FindsItself(timers, index, id);
      var it := Find(timers, index, id);
      EraseSorted(timers, index, it);
      index := Erase(index, it);
      ok := true;
    }

    /** Timer::refresh; it re-inserts without looking at the front. */
    method Refresh(id: Id, now: nat) returns (ok: bool)
      requires Valid() && id in timers
      modifies this
      ensures Valid() && Abs() == RefreshIn(old(Abs()), id, now)
      ensures ok ==> timers == old(timers)[id := old(timers)[id].(next := Plus(now, old(timers)[id].ms))]
      ensures !ok ==> timers == old(timers)
      ensures tickled == old(tickled) && previousTime == old(previousTime)
      ensures ok == Callable(old(timers)[id])
    {
      if !Callable(timers[id]) {
        return false;
      }
      FindsItself(timers, index, id);
      var it := Find(timers, index, id);
      if it == |index| {
        return false;
      }
      EraseSorted(timers, index, it);
      index := Erase(index, it);
      var t := timers[id].(next := Plus(now, timers[id].ms));
      OutsideUpdate(timers, index, id, t);
      timers := timers[id := t];
      InsertSorted(timers, index, id);
      index := Insert(timers, index, id).0;
      ok := true;
    }

    /** Timer::reset. */
    method Reset(id: Id, ms: nat, fromNow: bool, now: nat) returns (ok: bool, hook: bool)
      requires Valid() && id in timers
      modifies this
      ensures Valid() && Abs() == ResetIn(old(Abs()), id, ms, fromNow, now)
      ensures ok && (ms != old(timers)[id].ms || fromNow) ==>
        var t := old(timers)[id];
        var start := if fromNow then now else Minus(t.next, t.ms);
        timers == old(timers)[id := t.(ms := ms, next := Plus(start, ms))] && tickled == (old(tickled) || Front(timers, id))
      ensures !ok || (ms == old(timers)[id].ms && !fromNow) ==> timers == old(timers) && tickled == old(tickled)
      ensures previousTime == old(previousTime)
      ensures ok == ((ms == old(timers)[id].ms && !fromNow) || Callable(old(timers)[id]))
      ensures hook == (tickled && !old(tickled))
    {
      hook := false;
      if ms == timers[id].ms && !fromNow {
        return true, false;
      }
      if !Callable(timers[id]) {
        return false, false;
      }
      FindsItself(timers, index, id);
      var it := Find(timers, index, id);
      if it == |index| {
        return false, false;
      }
      EraseSorted(timers, index, it);
      index := Erase(index, it);
      var t := ResetTimer(timers[id], ms, fromNow, now);
      OutsideUpdate(timers, index, id, t);
      timers := timers[id := t];
      hook := Place(id);
      ok := true;
    }

    /** The locked insertion shared by addTimer and reset: puts a known timer in
        the index and, when it lands in front and the flag is down, raises the
        flag and asks for the front-insertion hook. */
    method Place(id: Id) returns (hook: bool)
      requires id in timers && timers[id].cb.Some? && id !in index
      requires Known(timers, index) && Sorted(timers, index)
      requires forall x :: x in timers && x != id ==> (x in index <==> timers[x].cb.Some?)
      modifies this`index, this`tickled
      ensures Valid()
      ensures tickled == (old(tickled) || Front(timers, id))
      ensures hook == (tickled && !old(tickled))
    {
      InsertSorted(timers, index, id);
      var (placed, it) := Insert(timers, index, id);
      index := placed;
      FrontIsFirst(timers, index, id, it);
      var atFront := it == 0 && !tickled;
      if atFront {
        tickled := true;
      }
      hook := atFront;
    }

    /** TimerManager::addTimer; `id` is the address of the new object. */
    method AddTimer(id: Id, ms: nat, cb: Callback, recurring: bool, now: nat) returns (hook: bool)
      requires Valid() && id !in timers
      modifies this
      ensures Valid() && Abs() == PutIn(old(Abs()), id, Timer(Plus(now, ms), ms, recurring, Some(cb)))
      ensures timers == old(timers)[id := Timer(Plus(now, ms), ms, recurring, Some(cb))]
      ensures tickled == (old(tickled) || Front(timers, id)) && previousTime == old(previousTime)
      ensures hook == (tickled && !old(tickled))
    {
      var t := Timer(Plus(now, ms), ms, recurring, Some(cb));
      assert id !in index;
      OutsideUpdate(timers, index, id, t);
      timers := timers[id := t];
      hook := Place(id);
    }

    /** TimerManager::getNextTimer: nothing (all ones) without timers, otherwise
        the distance to the earliest deadline, 0 if it has passed. */
    method GetNextTimer(now: nat) returns (wait: Option<nat>, ghost deadline: Option<nat>)
      requires Valid()
      modifies this`tickled
      ensures Valid() && Abs() == old(Abs()).(tickled := false)
      ensures deadline.None? <==> Idle(timers)
      ensures deadline.Some? ==> exists id :: Front(timers, id) && timers[id].next == deadline.value
      ensures wait == if deadline.None? then None else Some(if now >= deadline.value then 0 else deadline.value - now)
    {
      tickled := false;
      if |index| == 0 {
        return None, None;
      }
      FrontIsFirst(timers, index, index[0], 0);
      var next := timers[index[0]];
      deadline := Some(next.next);
      wait := Some(if now >= next.next then 0 else next.next - now);
    }

    /** TimerManager::detectClockRollover: a step back, of more than an hour once the last
        time is an hour or more. */
    method DetectClockRollover(now: nat) returns (rollover: bool)
      modifies this`previousTime
      ensures rollover == Rollover(old(previousTime), now) && previousTime == now
      ensures HOUR <= old(previousTime) < WRAP ==> (rollover <==> now + HOUR < old(previousTime))
      ensures old(previousTime) < HOUR ==> (rollover <==> now < old(previousTime))
    {
      rollover := false;
      if now < previousTime && now < Minus(previousTime, HOUR) {
        rollover := true;
      }
      previousTime := now;
    }

    /** TimerManager::listExpiredTimer; `address` is that of the probe object made
        for the search. The callbacks are those of the due timers, in the order
        of (deadline, address), each once; `fired` names them. */
    method ListExpiredTimer(now: nat, address: Id) returns (cbs: seq<Callback>, ghost fired: seq<Id>)
      requires Valid()
      modifies this
      ensures Valid() && Abs() == ExpireIn(old(Abs()), now)
      ensures timers.Keys == old(timers).Keys && tickled == old(tickled)
      ensures forall id :: id in timers ==>
        var t := old(timers)[id];
        timers[id] == if t.cb.None? || (!Rollover(old(previousTime), now) && t.next > now) then t
                      else if t.recurring then t.(next := Plus(now, t.ms)) else t.(cb := None)
      ensures Known(old(timers), fired) && Sorted(old(timers), fired)
      ensures forall id :: id in fired <==> Due(old(Abs()), now, id)
      ensures |cbs| == |fired| && forall i :: 0 <= i < |fired| ==> old(timers)[fired[i]].cb == Some(cbs[i])
    {
      hide Plus, AfterFiring, Rollover, Minus, KeyLess, LowerBound, ExpireIn;
      ghost var b := Abs();
      ExpirySpelled(b, now);
      if |index| == 0 {
        NothingExpires(b, now);
        return [], [];
      }
      assert Live(timers, index[0]);
      var rollover := DetectClockRollover(now);
      if !rollover && timers[index[0]].next > now {
        NoneDue(timers, index, now);
        ExpiryBooked(b, timers, [], now);
        return [], [];
      }
      var it := UpTo(rollover, now, address);
      DuePrefix(b, index, now, it);
      fired := index[..it];
      cbs := FireAll(index[..it], now, it);
      ExpiryBooked(b, timers, fired, now);
    }

    /** The end of the expired part: the search for the probe, then past its ties. */
    method UpTo(rollover: bool, now: nat, address: Id) returns (it: nat)
      requires Known(timers, index) && Sorted(timers, index)
      ensures it <= |index|
      ensures forall i :: 0 <= i < it ==> rollover || timers[index[i]].next <= now
      ensures it < |index| ==> !rollover && timers[index[it]].next > now
    {
      it := if rollover then |index| else LowerBound(timers, index, Key(now, address));
      while it < |index| && timers[index[it]].next == now
        invariant it <= |index|
        invariant forall i :: 0 <= i < it ==> rollover || timers[index[i]].next <= now
        invariant it < |index| ==> !rollover && timers[index[it]].next >= now
      {
        it := it + 1;
        if it < |index| {
          assert KeyLess(KeyOf(timers, index[it - 1]), KeyOf(timers, index[it]));
        }
      }
    }

    /** The second half of an expiry: takes `expired` out of the index, collects the
        callbacks, and re-inserts or ends each timer in turn. */
    method FireAll(expired: seq<Id>, now: nat, it: nat) returns (cbs: seq<Callback>)
      requires Valid() && it <= |index| && expired == index[..it]
      modifies this`timers, this`index
      ensures Valid() && timers.Keys == old(timers).Keys
      ensures forall id :: id in timers ==> timers[id] == if id in expired then AfterFiring(old(timers)[id], now) else old(timers)[id]
      ensures |cbs| == |expired| && forall i :: 0 <= i < |expired| ==> old(timers)[expired[i]].cb == Some(cbs[i])
    {
      hide Plus, LowerBound, Insert, AfterFiring, Sorted, KeyLess, Fired;
      SplitIndex(timers, index, it);
      cbs := [];
      ghost var was := timers;
      FiringStarts(timers, index, it, now);
      index := index[it..];
      for i := 0 to |expired|
        invariant Known(timers, index) && Sorted(timers, index) && Fired(timers, index, was, expired, i, now)
        invariant |cbs| == i && forall k :: 0 <= k < i ==> was[expired[k]].cb == Some(cbs[k])
      {
        var id := expired[i];
        NextToFire(timers, index, was, expired, i, now);
        cbs := cbs + [timers[id].cb.value];
        ghost var before, order := timers, index;
        FireOne(id, now);
        FiringGoesOn(before, order, timers, index, was, expired, i, now);
      }
      FiringEnds(timers, index, was, expired, now);
    }

    /** One expired timer: a recurring one goes back into the index, another one ends. */
    method FireOne(id: Id, now: nat)
      requires Known(timers, index) && Sorted(timers, index) && Live(timers, id) && id !in index
      modifies this`timers, this`index
      ensures Known(timers, index) && Sorted(timers, index)
      ensures timers == old(timers)[id := AfterFiring(old(timers)[id], now)]
      ensures forall x :: x in index <==> x in old(index) || (x == id && timers[id].cb.Some?)
    {
      var t := timers[id];
      if t.recurring {
        OutsideUpdate(timers, index, id, t.(next := Plus(now, t.ms)));
        timers := timers[id := t.(next := Plus(now, t.ms))];
        InsertSorted(timers, index, id);
        index := Insert(timers, index, id).0;
      } else {
        OutsideUpdate(timers, index, id, t.(cb := None));
        timers := timers[id := t.(cb := None)];
      }
    }
  }

  /** Timer by timer: what an expiry does to those in the set and due, and to the others. */
  lemma ExpirySpelled(b: Book, now: nat)
    ensures ExpireIn(b, now).timers.Keys == b.timers.Keys && ExpireIn(b, now).tickled == b.tickled
    ensures forall id :: id in b.timers ==>
      var t := b.timers[id];
      ExpireIn(b, now).timers[id] ==
        if t.cb.None? || (!Rollover(b.previous, now) && t.next > now) then t
        else if t.recurring then t.(next := Plus(now, t.ms)) else t.(cb := None)
  {
    hide Plus, Rollover;
    forall id | id in b.timers
      ensures Due(b, now, id) <==> b.timers[id].cb.Some? && (Rollover(b.previous, now) || b.timers[id].next <= now)
    {
    }
  }

  lemma NothingExpires(b: Book, now: nat)
    requires Idle(b.timers)
    ensures ExpireIn(b, now) == b && forall id :: !Due(b, now, id)
  {
  }

  /** Firing the due timers is the book's expiry. */
  lemma ExpiryBooked(b: Book, timers: map<Id, Timer>, fired: seq<Id>, now: nat)
    requires !Idle(b.timers) && timers.Keys == b.timers.Keys && forall id :: id in fired <==> Due(b, now, id)
    requires forall id :: id in timers ==> timers[id] == if id in fired then AfterFiring(b.timers[id], now) else b.timers[id]
    ensures ExpireIn(b, now) == b.(timers := timers, previous := now)
  {
    hide Plus, AfterFiring, Due;
    assert ExpireIn(b, now).timers == timers;
  }

  /** The first `i` of the expired timers have fired, the others are out of the index. */
  ghost predicate Fired(timers: map<Id, Timer>, index: seq<Id>, was: map<Id, Timer>, expired: seq<Id>, i: nat, now: nat)
  {
    && i <= |expired| && timers.Keys == was.Keys
    && (forall k :: 0 <= k < |expired| ==> Live(was, expired[k]))
    && (forall j, k :: 0 <= j < |expired| && 0 <= k < |expired| && expired[j] == expired[k] ==> j == k)
    && (forall x :: x in timers ==> (x in index <==> timers[x].cb.Some? && x !in expired[i..]))
    && (forall x :: x in timers ==> timers[x] == if x in expired[..i] then AfterFiring(was[x], now) else was[x])
  }

  lemma FiringStarts(timers: map<Id, Timer>, index: seq<Id>, it: nat, now: nat)
    requires Known(timers, index) && Sorted(timers, index) && it <= |index|
    requires forall x :: x in timers ==> (x in index <==> timers[x].cb.Some?)
    ensures Fired(timers, index[it..], timers, index[..it], 0, now)
  {
    hide KeyLess, AfterFiring, Sorted;
    SortedDistinct(timers, index);
    SplitIndex(timers, index, it);
    assert index[..it][0..] == index[..it];
    forall k | 0 <= k < it
      ensures Live(timers, index[..it][k])
    {
      assert index[k] in index;
    }
  }

  lemma NextToFire(timers: map<Id, Timer>, index: seq<Id>, was: map<Id, Timer>, expired: seq<Id>, i: nat, now: nat)
    requires Fired(timers, index, was, expired, i, now) && i < |expired|
    ensures Live(timers, expired[i]) && timers[expired[i]] == was[expired[i]] && expired[i] !in index
  {
    hide AfterFiring;
    assert expired[i] in expired[i..] && expired[i] in was;
    assert expired[i] !in expired[..i];
  }

  lemma FiringGoesOn(before: map<Id, Timer>, order: seq<Id>, timers: map<Id, Timer>, index: seq<Id>,
                     was: map<Id, Timer>, expired: seq<Id>, i: nat, now: nat)
    requires Fired(before, order, was, expired, i, now) && i < |expired| && expired[i] in before
    requires timers == before[expired[i] := AfterFiring(before[expired[i]], now)]
    requires forall x :: x in index <==> x in order || (x == expired[i] && timers[expired[i]].cb.Some?)
    ensures Fired(timers, index, was, expired, i + 1, now)
  {
    hide AfterFiring;
    NextToFire(before, order, was, expired, i, now);
    Around(expired, i);
    assert expired[i] !in expired[i + 1..];
  }

  lemma FiringEnds(timers: map<Id, Timer>, index: seq<Id>, was: map<Id, Timer>, expired: seq<Id>, now: nat)
    requires Fired(timers, index, was, expired, |expired|, now)
    ensures timers.Keys == was.Keys
    ensures forall x :: x in timers ==> timers[x] == if x in expired then AfterFiring(was[x], now) else was[x]
    ensures forall x :: x in timers ==> (x in index <==> timers[x].cb.Some?)
  {
    hide AfterFiring;
    assert expired[..|expired|] == expired && expired[|expired|..] == [];
  }

  lemma SplitIndex(timers: map<Id, Timer>, index: seq<Id>, it: nat)
    requires it <= |index| && Known(timers, index) && Sorted(timers, index)
    ensures forall x :: x in index <==> x in index[..it] || x in index[it..]
    ensures forall x :: x in index[..it] ==> x !in index[it..]
    ensures Known(timers, index[it..]) && Sorted(timers, index[it..])
    ensures forall a, b :: 0 <= a < it && 0 <= b < it && index[..it][a] == index[..it][b] ==> a == b
  {
    assert index == index[..it] + index[it..];
    SortedDistinct(timers, index);
  }

  /** The elements around place `i` of a sequence without repetitions. */
  lemma Around(s: seq<Id>, i: nat)
    requires i < |s| && forall a, b :: 0 <= a < |s| && 0 <= b < |s| && s[a] == s[b] ==> a == b
    ensures s[i] in s[i..] && s[i] !in s[..i] && s[i] !in s[i + 1..]
    ensures forall x :: x in s[i..] <==> x == s[i] || x in s[i + 1..]
    ensures forall x :: x in s[..i + 1] <==> x in s[..i] || x == s[i]
  {
    assert s[i..] == [s[i]] + s[i + 1..];
    assert s[..i + 1] == s[..i] + [s[i]];
  }

  lemma NoneDue(timers: map<Id, Timer>, index: seq<Id>, now: nat)
    requires Known(timers, index) && Sorted(timers, index) && index != [] && timers[index[0]].next > now
    requires forall x :: x in timers ==> (x in index <==> timers[x].cb.Some?)
    ensures forall id :: Live(timers, id) ==> timers[id].next > now
  {
    forall id | Live(timers, id) ensures timers[id].next > now {
      var k :| 0 <= k < |index| && index[k] == id;
      assert k > 0 ==> KeyLess(KeyOf(timers, index[0]), KeyOf(timers, index[k]));
    }
  }

  lemma InPrefix(index: seq<Id>, it: nat)
    requires it <= |index|
    ensures forall k :: 0 <= k < it ==> index[k] in index[..it]
  {
    forall k | 0 <= k < it ensures index[k] in index[..it] {
      assert index[..it][k] == index[k];
    }
  }

  /** The due timers are a prefix of the index, wherever the probe's address put it. */
  lemma DuePrefix(b: Book, index: seq<Id>, now: nat, it: nat)
    requires Known(b.timers, index) && Sorted(b.timers, index) && it <= |index|
    requires forall x :: x in b.timers ==> (x in index <==> b.timers[x].cb.Some?)
    requires forall i :: 0 <= i < it ==> Rollover(b.previous, now) || b.timers[index[i]].next <= now
    requires it < |index| ==> !Rollover(b.previous, now) && b.timers[index[it]].next > now
    ensures forall id :: id in index[..it] <==> Due(b, now, id)
  {
    InPrefix(index, it);
    forall id ensures id in index[..it] <==> Due(b, now, id) {
      if id in index[..it] {
        var k :| 0 <= k < it && index[k] == id;
      } else if Live(b.timers, id) {
        var k :| 0 <= k < |index| && index[k] == id;
        assert k > it ==> KeyLess(KeyOf(b.timers, index[it]), KeyOf(b.timers, index[k]));
      }
    }
  }

  /** Dropping the callback of an indexed timer keeps its key, so the order stands. */
  lemma KeyKept(timers: map<Id, Timer>, index: seq<Id>, id: Id, t: Timer)
    requires Known(timers, index) && Sorted(timers, index) && id in timers && t.next == timers[id].next
    ensures Known(timers[id := t], index) && Sorted(timers[id := t], index)
  {
  }

  /** The timer in front of all live ones is the first of the index. */
  lemma FrontIsFirst(timers: map<Id, Timer>, index: seq<Id>, id: Id, it: nat)
    requires Known(timers, index) && Sorted(timers, index)
    requires forall x :: x in timers ==> (x in index <==> timers[x].cb.Some?)
    requires it < |index| && index[it] == id
    ensures it == 0 <==> Front(timers, id)
  {
    if it == 0 {
      forall j | Live(timers, j) && j != id ensures KeyLess(KeyOf(timers, id), KeyOf(timers, j)) {
        var k :| 0 <= k < |index| && index[k] == j;
        assert KeyLess(KeyOf(timers, index[0]), KeyOf(timers, index[k]));
      }
    } else {
      assert KeyLess(KeyOf(timers, index[0]), KeyOf(timers, index[it]));
      assert Live(timers, index[0]) && index[0] != id;
    }
  }
}
