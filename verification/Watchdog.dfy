/** The watchdog's timers: a table of live timers and a heap whose outdated entries are skipped when they surface. */
module Watchdog {
  import opened CraftTypes

  type TimerId = nat
  type Time = int

  /** For a one-shot, `period` is the original delay, which a reset adds again. */
  datatype Timer = Timer(deadline: Time, period: Time, recurring: bool, generation: nat)

  datatype Entry = Entry(deadline: Time, id: TimerId, generation: nat)

  /**
   * The callback the worker has decided to run: the timer and the generation it was popped
   * with. The worker drops the lock before it enters the callback, so others may move
   * between the pop and the beginning.
   */
  datatype Firing = Firing(id: TimerId, generation: nat, recurring: bool, period: Time, begun: bool)

  datatype Dog = Dog(heap: multiset<Entry>, timers: map<TimerId, Timer>, nextId: TimerId, firing: Option<Firing>)

  datatype Move =
    | Add(now: Time, delay: Time, period: Option<Time>)
    | Reset(now: Time, id: TimerId)
    | Cancel(id: TimerId)
    | Pop(now: Time, e: Entry)   // the worker takes the top of the heap and decides whether the entry is current
    | Begin                      // it enters the callback, without the lock
    | Finish(now: Time)          // the callback has returned

  /** `e` may be on top of the heap: nothing is due earlier. */
  predicate OnTop(heap: multiset<Entry>, e: Entry) {
    e in heap && forall x :: x in heap ==> e.deadline <= x.deadline
  }

  predicate CanMove(d: Dog, m: Move) {
    match m
    case Pop(now, e) => d.firing.None? && OnTop(d.heap, e) && e.deadline <= now
    case Begin => d.firing.Some? && !d.firing.value.begun
    case Finish(now) => d.firing.Some? && d.firing.value.begun
    case _ => true
  }

  /** The entry belongs to a live timer and to its current generation. */
  predicate Current(d: Dog, e: Entry) {
    e.id in d.timers && d.timers[e.id].generation == e.generation
  }

  function EntryOf(d: Dog, id: TimerId): Entry
    requires id in d.timers
  {
    Entry(d.timers[id].deadline, id, d.timers[id].generation)
  }

  function Moved(d: Dog, m: Move): (d': Dog)
    requires CanMove(d, m)
  {
    match m
    case Add(now, delay, period) =>
      var t := Timer(now + delay, if period.Some? then period.value else delay, period.Some?, 0);
      d.(heap := d.heap + multiset{Entry(t.deadline, d.nextId, 0)},
         timers := d.timers[d.nextId := t], nextId := d.nextId + 1)
    case Reset(now, id) =>
      if id !in d.timers then d else
      var t := d.timers[id].(deadline := now + d.timers[id].period, generation := d.timers[id].generation + 1);
      d.(heap := d.heap + multiset{Entry(t.deadline, id, t.generation)}, timers := d.timers[id := t])
    case Cancel(id) => d.(timers := d.timers - {id})
    case Pop(now, e) =>
      d.(heap := d.heap - multiset{e},
         firing := if !Current(d, e) then None
                   else Some(Firing(e.id, e.generation, d.timers[e.id].recurring, d.timers[e.id].period, false)))
    case Begin => d.(firing := Some(d.firing.value.(begun := true)))
    case Finish(now) =>
      var f := d.firing.value;
      var rest := d.(firing := None);
      if !f.recurring then rest.(timers := d.timers - {f.id})
      else if f.id in d.timers && d.timers[f.id].generation == f.generation then
        var t := d.timers[f.id].(deadline := now + f.period);
        rest.(heap := d.heap + multiset{Entry(t.deadline, f.id, t.generation)}, timers := d.timers[f.id := t])
      else rest
  }

  predicate Steps(d: Dog, ms: seq<Move>, d': Dog)
    decreases |ms|
  {
    if ms == [] then d' == d else CanMove(d, ms[0]) && Steps(Moved(d, ms[0]), ms[1..], d')
  }

  const START := Dog(multiset{}, map[], 1, None)

  // ---------------------------------------------------------------- the invariant

  /** Popped or running right now, and not reset since. */
  predicate Running(d: Dog, id: TimerId) {
    d.firing.Some? && d.firing.value.id == id && id in d.timers && d.firing.value.generation == d.timers[id].generation
  }

  /** Heap and table agree on timer `id`. */
  ghost predicate TimerOk(d: Dog, id: TimerId)
    requires id in d.timers
  {
    && id < d.nextId
    && d.heap[EntryOf(d, id)] == (if Running(d, id) then 0 else 1)
    && forall e :: e in d.heap && e.id == id && e.generation == d.timers[id].generation ==> e == EntryOf(d, id)
  }

  ghost predicate EntryOk(d: Dog, e: Entry) {
    e.id < d.nextId && (e.id in d.timers ==> e.generation <= d.timers[e.id].generation)
  }

  ghost predicate FiringOk(d: Dog) {
    d.firing.Some? ==>
      var f := d.firing.value;
      && f.id < d.nextId
      && (f.id in d.timers ==>
            && f.generation <= d.timers[f.id].generation
            && f.period == d.timers[f.id].period && f.recurring == d.timers[f.id].recurring)
  }

  ghost predicate DogInv(d: Dog) {
    && (forall id :: id in d.timers ==> TimerOk(d, id))
    && (forall e :: e in d.heap ==> EntryOk(d, e))
    && FiringOk(d)
  }

  lemma AddKeeps(d: Dog, m: Move)
    requires DogInv(d) && m.Add?
    ensures DogInv(Moved(d, m))
  {
    var d' := Moved(d, m);
    forall e | e in d'.heap ensures EntryOk(d', e) { assert e in d.heap ==> EntryOk(d, e); }
    forall id | id in d'.timers ensures TimerOk(d', id) {
      if id == d.nextId {
        forall e | e in d.heap ensures e.id != id { assert EntryOk(d, e); }
      } else {
        assert TimerOk(d, id);
      }
    }
  }

  lemma ResetKeeps(d: Dog, now: Time, id: TimerId)
    requires DogInv(d) && id in d.timers
    ensures DogInv(Moved(d, Reset(now, id)))
  {
    var d' := Moved(d, Reset(now, id));
    assert TimerOk(d, id);
    forall e | e in d'.heap ensures EntryOk(d', e) { assert e in d.heap ==> EntryOk(d, e); }
    forall k | k in d'.timers ensures TimerOk(d', k) {
      assert TimerOk(d, k);
      if k == id {
        forall e | e in d.heap && e.id == id ensures e.generation < d'.timers[id].generation { assert EntryOk(d, e); }
      }
    }
  }

  lemma CancelKeeps(d: Dog, id: TimerId)
    requires DogInv(d)
    ensures DogInv(Moved(d, Cancel(id)))
  {
    var d' := Moved(d, Cancel(id));
    forall e | e in d'.heap ensures EntryOk(d', e) { assert EntryOk(d, e); }
    forall k | k in d'.timers ensures TimerOk(d', k) { assert TimerOk(d, k); }
  }

  lemma PopKeeps(d: Dog, now: Time, e: Entry)
    requires DogInv(d) && CanMove(d, Pop(now, e))
    ensures DogInv(Moved(d, Pop(now, e)))
  {
    var d' := Moved(d, Pop(now, e));
    assert EntryOk(d, e);
    forall x | x in d'.heap ensures EntryOk(d', x) { assert x in d.heap && EntryOk(d, x); }
    forall k | k in d'.timers ensures TimerOk(d', k) {
      assert TimerOk(d, k);
      assert forall x :: x in d'.heap ==> x in d.heap;
      if Current(d, e) && e.id == k { assert e == EntryOf(d, k); }
    }
  }

  lemma FinishKeeps(d: Dog, now: Time)
    requires DogInv(d) && CanMove(d, Finish(now))
    ensures DogInv(Moved(d, Finish(now)))
  {
    var d', f := Moved(d, Finish(now)), d.firing.value;
    forall x | x in d'.heap ensures EntryOk(d', x) { assert x in d.heap ==> EntryOk(d, x); }
    forall k | k in d'.timers ensures TimerOk(d', k) {
      assert TimerOk(d, k);
      if k == f.id && Running(d, k) {
        assert d.heap[EntryOf(d, k)] == 0;
        assert forall x :: x in d.heap && x.id == k ==> x.generation != d.timers[k].generation;
      }
    }
  }

  lemma BeginKeeps(d: Dog)
    requires DogInv(d) && CanMove(d, Begin)
    ensures DogInv(Moved(d, Begin))
  {
    var d' := Moved(d, Begin);
    forall x | x in d'.heap ensures EntryOk(d', x) { assert EntryOk(d, x); }
    forall k | k in d'.timers ensures TimerOk(d', k) { assert TimerOk(d, k); }
  }

  lemma MoveKeeps(d: Dog, m: Move)
    requires DogInv(d) && CanMove(d, m)
    ensures DogInv(Moved(d, m))
  {
    match m
    case Add(_, _, _) => AddKeeps(d, m);
    case Reset(now, id) => if id in d.timers { ResetKeeps(d, now, id); }
    case Cancel(id) => CancelKeeps(d, id);
    case Pop(now, e) => PopKeeps(d, now, e);
    case Begin => BeginKeeps(d);
    case Finish(now) => FinishKeeps(d, now);
  }

  lemma {:induction false} StepsKeep(d: Dog, ms: seq<Move>, d': Dog)
    requires DogInv(d) && Steps(d, ms, d')
    ensures DogInv(d') && d.nextId <= d'.nextId
    ensures forall id :: id < d.nextId && id !in d.timers ==> id !in d'.timers
    decreases |ms|
  {
    if ms != [] {
      MoveKeeps(d, ms[0]);
      StepsKeep(Moved(d, ms[0]), ms[1..], d');
    }
  }

  // ---------------------------------------------------------------- the theorems

  /** Every registered timer that is not running has exactly one current heap entry, at its deadline. */
  lemma OneCurrentEntry(ms: seq<Move>, d: Dog, id: TimerId)
    requires Steps(START, ms, d) && id in d.timers && !Running(d, id)
    ensures d.heap[EntryOf(d, id)] == 1
    ensures forall e :: e in d.heap && Current(d, e) && e.id == id ==> e == EntryOf(d, id)
  {
    StepsKeep(START, ms, d);
    assert TimerOk(d, id);
  }

  /** A pop that decides to run the callback of `id`. */
  predicate Fires(d: Dog, m: Move, id: TimerId) {
    m.Pop? && m.e.id == id && Current(d, m.e)
  }

  /** No pop decides for a timer that was cancelled. */
  lemma NoPopAfterCancel(a: seq<Move>, d1: Dog, id: TimerId, b: seq<Move>, d2: Dog, m: Move)
    requires Steps(START, a, d1) && id in d1.timers
    requires Steps(Moved(d1, Cancel(id)), b, d2) && CanMove(d2, m)
    ensures id !in d2.timers && !Fires(d2, m, id)
  {
    StepsKeep(START, a, d1);
    assert TimerOk(d1, id);
    CancelKeeps(d1, id);
    StepsKeep(Moved(d1, Cancel(id)), b, d2);
  }

  /** No pop decides before the deadline its timer has then, that is the one the latest reset set. */
  lemma NoPopBeforeDeadline(ms: seq<Move>, d: Dog, m: Move, id: TimerId)
    requires Steps(START, ms, d) && CanMove(d, m) && Fires(d, m, id)
    ensures m.now >= d.timers[id].deadline
  {
    StepsKeep(START, ms, d);
    assert TimerOk(d, id);
  }

  /** Along the run `id` is neither reset nor popped. */
  predicate Untouched(d: Dog, ms: seq<Move>, id: TimerId)
    decreases |ms|
  {
    ms != [] && CanMove(d, ms[0]) ==>
      !(ms[0].Reset? && ms[0].id == id) && !Fires(d, ms[0], id) && Untouched(Moved(d, ms[0]), ms[1..], id)
  }

  lemma StepStays(d: Dog, m: Move, id: TimerId)
    requires CanMove(d, m) && id in d.timers && id < d.nextId && !Running(d, id)
    requires !(m.Reset? && m.id == id) && !Fires(d, m, id)
    ensures var d' := Moved(d, m);
      id < d'.nextId && (id in d'.timers ==> d'.timers[id] == d.timers[id] && !Running(d', id))
  {
  }

  lemma {:induction false} DeadlineStays(d: Dog, ms: seq<Move>, d': Dog, id: TimerId)
    requires DogInv(d) && Steps(d, ms, d') && Untouched(d, ms, id)
    requires id in d.timers && id < d.nextId && !Running(d, id)
    ensures id in d'.timers ==> d'.timers[id] == d.timers[id] && !Running(d', id)
    decreases |ms|
  {
    hide DogInv, Running, Fires;
    if ms != [] {
      var m := Moved(d, ms[0]);
      StepStays(d, ms[0], id);
      MoveKeeps(d, ms[0]);
      if id in m.timers {
        DeadlineStays(m, ms[1..], d', id);
      } else {
        StepsKeep(m, ms[1..], d');
      }
    }
  }

  /** After a reset at `now` no pop decides for the timer before a whole period has passed. */
  lemma NoPopBeforeReset(a: seq<Move>, d1: Dog, now: Time, id: TimerId, b: seq<Move>, d2: Dog, m: Move)
    requires Steps(START, a, d1) && id in d1.timers
    requires Steps(Moved(d1, Reset(now, id)), b, d2) && Untouched(Moved(d1, Reset(now, id)), b, id)
    requires CanMove(d2, m) && Fires(d2, m, id)
    ensures m.now >= now + d1.timers[id].period
  {
    StepsKeep(START, a, d1);
    ResetKeeps(d1, now, id);
    var r := Moved(d1, Reset(now, id));
    assert TimerOk(d1, id);
    DeadlineStays(r, b, d2, id);
    StepsKeep(r, b, d2);
    assert TimerOk(d2, id);
  }

  /**
   * A recurring timer that is left alone while its callback runs is armed for one period
   * after the callback returned, and no pop decides for it before that.
   */
  lemma NoPopBeforePeriod(a: seq<Move>, d1: Dog, now: Time, id: TimerId, b: seq<Move>, d2: Dog, m: Move)
    requires Steps(START, a, d1) && Running(d1, id) && d1.timers[id].recurring && CanMove(d1, Finish(now))
    requires Steps(Moved(d1, Finish(now)), b, d2) && Untouched(Moved(d1, Finish(now)), b, id)
    requires CanMove(d2, m) && Fires(d2, m, id)
    ensures m.now >= now + d1.timers[id].period
  {
    StepsKeep(START, a, d1);
    FinishKeeps(d1, now);
    var r := Moved(d1, Finish(now));
    assert TimerOk(d1, id);
    DeadlineStays(r, b, d2, id);
    StepsKeep(r, b, d2);
    assert TimerOk(d2, id);
  }

  lemma {:induction false} StepsOn(d: Dog, a: seq<Move>, m: Dog, b: seq<Move>, d': Dog)
    requires Steps(d, a, m) && Steps(m, b, d')
    ensures Steps(d, a + b, d')
    decreases |a|
  {
    hide Moved, CanMove;
    if a == [] {
      assert a + b == b;
    } else {
      StepsOn(Moved(d, a[0]), a[1..], m, b, d');
      assert (a + b)[0] == a[0] && (a + b)[1..] == a[1..] + b;
    }
  }

  /** A timer keeps its period and kind for as long as it is registered. */
  lemma {:induction false} PeriodStays(d: Dog, ms: seq<Move>, d': Dog, id: TimerId)
    requires Steps(d, ms, d') && id in d.timers && id < d.nextId && id in d'.timers
    ensures d'.timers[id].period == d.timers[id].period && d'.timers[id].recurring == d.timers[id].recurring
    decreases |ms|
  {
    if ms != [] {
      var m := Moved(d, ms[0]);
      if id in m.timers { PeriodStays(m, ms[1..], d', id); } else { GoneStays(m, ms[1..], d', id); }
    }
  }

  /**
   * Two pops of a recurring timer that nobody resets or cancels in between are at least a
   * period apart: `m0` decided, the callback returned at `now`, and `m` decides next.
   */
  lemma PopsAPeriodApart(a: seq<Move>, d0: Dog, m0: Move, b0: seq<Move>, d1: Dog, now: Time, b: seq<Move>, d2: Dog,
                         m: Move, id: TimerId)
    requires Steps(START, a, d0) && CanMove(d0, m0) && Fires(d0, m0, id) && d0.timers[id].recurring
    requires Steps(Moved(d0, m0), b0, d1) && Running(d1, id) && CanMove(d1, Finish(now)) && m0.now <= now
    requires Steps(Moved(d1, Finish(now)), b, d2) && Untouched(Moved(d1, Finish(now)), b, id)
    requires CanMove(d2, m) && Fires(d2, m, id)
    ensures m.now >= m0.now + d0.timers[id].period
  {
    StepsKeep(START, a, d0);
    assert TimerOk(d0, id);
    hide DogInv, TimerOk, Untouched;
    PeriodStays(Moved(d0, m0), b0, d1, id);
    Then(d0, m0, b0, d1);
    StepsOn(START, a, d0, [m0] + b0, d1);
    NoPopBeforePeriod(a + ([m0] + b0), d1, now, id, b, d2, m);
  }

  /** A registered timer that is not running fires once it is due, the worker is free and nothing is due before it. */
  lemma DueFires(ms: seq<Move>, d: Dog, id: TimerId, now: Time)
    requires Steps(START, ms, d) && id in d.timers && !Running(d, id) && d.firing.None?
    requires d.timers[id].deadline <= now && forall e :: e in d.heap ==> d.timers[id].deadline <= e.deadline
    ensures CanMove(d, Pop(now, EntryOf(d, id))) && Fires(d, Pop(now, EntryOf(d, id)), id)
    ensures Popped(Moved(d, Pop(now, EntryOf(d, id))), id)
  {
    OneCurrentEntry(ms, d, id);
  }

  // ---------------------------------------------------------------- callbacks that begin late

  /** The worker has decided to run the callback of `id` and has not entered it. */
  predicate Popped(d: Dog, id: TimerId) {
    d.firing.Some? && d.firing.value.id == id && !d.firing.value.begun
  }

  /** Some run from `d` enters the callback of `id`. */
  ghost predicate EverBegins(d: Dog, id: TimerId) {
    exists ms, d' :: Steps(d, ms, d') && Popped(d', id)
  }

  /** Some run from `d` enters the callback of `id` on a pop of generation `g` or older. */
  ghost predicate MayBegin(d: Dog, id: TimerId, g: nat) {
    exists ms, d' :: Steps(d, ms, d') && Popped(d', id) && d'.firing.value.generation <= g
  }

  lemma {:induction false} CancelledStays(d: Dog, ms: seq<Move>, d': Dog, id: TimerId)
    requires Steps(d, ms, d') && id < d.nextId && id !in d.timers && !Popped(d, id)
    ensures !Popped(d', id)
    decreases |ms|
  {
    if ms != [] { CancelledStays(Moved(d, ms[0]), ms[1..], d', id); }
  }

  /**
   * After cancel() has returned the callback is still entered exactly when the worker had
   * popped its entry and not entered it yet.
   */
  lemma BeginsAfterCancelExactly(a: seq<Move>, d: Dog, id: TimerId)
    requires Steps(START, a, d) && id in d.timers
    ensures EverBegins(Moved(d, Cancel(id)), id) <==> Popped(d, id)
  {
    StepsKeep(START, a, d);
    assert TimerOk(d, id) && FiringOk(d);
    var c := Moved(d, Cancel(id));
    if Popped(d, id) {
      assert Steps(c, [], c) && Popped(c, id);
    } else if EverBegins(c, id) {
      var ms, d' :| Steps(c, ms, d') && Popped(d', id);
      CancelledStays(c, ms, d', id);
    }
  }

  /** Every later pop of `id` is of a generation above `g`, once no older one is under way. */
  ghost predicate Newer(d: Dog, id: TimerId, g: nat) {
    && id < d.nextId && (id in d.timers ==> d.timers[id].generation > g)
    && (Popped(d, id) ==> d.firing.value.generation > g)
  }

  lemma NewerMoved(d: Dog, m: Move, id: TimerId, g: nat)
    requires CanMove(d, m) && Newer(d, id, g)
    ensures Newer(Moved(d, m), id, g)
  {
  }

  lemma {:induction false} NewerStays(d: Dog, ms: seq<Move>, d': Dog, id: TimerId, g: nat)
    requires Steps(d, ms, d') && Newer(d, id, g)
    ensures Newer(d', id, g)
    decreases |ms|
  {
    hide Moved, CanMove, Newer;
    if ms != [] {
      NewerMoved(d, ms[0], id, g);
      NewerStays(Moved(d, ms[0]), ms[1..], d', id, g);
    }
  }

  /**
   * After reset() has returned the callback is still entered for the deadline before it
   * exactly when the worker had popped that entry and not entered the callback yet.
   */
  lemma BeginsAfterResetExactly(a: seq<Move>, d: Dog, now: Time, id: TimerId)
    requires Steps(START, a, d) && id in d.timers
    ensures MayBegin(Moved(d, Reset(now, id)), id, d.timers[id].generation) <==> Popped(d, id)
  {
    StepsKeep(START, a, d);
    assert TimerOk(d, id) && FiringOk(d);
    var c, g := Moved(d, Reset(now, id)), d.timers[id].generation;
    if Popped(d, id) {
      assert Steps(c, [], c) && Popped(c, id);
    } else if MayBegin(c, id, g) {
      var ms, d' :| Steps(c, ms, d') && Popped(d', id) && d'.firing.value.generation <= g;
      NewerStays(c, ms, d', id, g);
    }
  }

  lemma Then(d: Dog, m: Move, ms: seq<Move>, d': Dog)
    requires CanMove(d, m) && Steps(Moved(d, m), ms, d')
    ensures Steps(d, [m] + ms, d')
  {
    assert ([m] + ms)[1..] == ms;
  }

  /** A one-shot added at 0 with delay 5 and popped at 5, its callback not entered. */
  lemma FirstPop() returns (ms: seq<Move>, d: Dog)
    ensures Steps(START, ms, d) && 1 in d.timers && Popped(d, 1) && d.timers[1] == Timer(5, 5, false, 0)
    ensures d.firing == Some(Firing(1, 0, false, 5, false)) && ms == [Add(0, 5, None), Pop(5, Entry(5, 1, 0))]
  {
    var d1 := Moved(START, Add(0, 5, None));
    var e := Entry(5, 1, 0);
    assert d1.heap == multiset{e};
    d := Moved(d1, Pop(5, e));
    assert Steps(d, [], d);
    Then(d1, Pop(5, e), [], d);
    Then(START, Add(0, 5, None), [Pop(5, e)], d);
    ms := [Add(0, 5, None), Pop(5, e)];
    assert ms == [Add(0, 5, None)] + ([Pop(5, e)] + []);
  }

  /** The callback of a timer begins after cancel() returned. */
  lemma BeginsAfterCancel() returns (ms: seq<Move>, d: Dog)
    ensures Steps(START, ms, d) && 1 in d.timers
    ensures var c := Moved(d, Cancel(1)); 1 !in c.timers && CanMove(c, Begin) && c.firing.value.id == 1
  {
    ms, d := FirstPop();
  }

  /** The callback of a timer begins after reset() returned, and long before its new deadline. */
  lemma BeginsAfterReset(now: Time) returns (ms: seq<Move>, d: Dog)
    ensures Steps(START, ms, d) && 1 in d.timers
    ensures var c := Moved(d, Reset(now, 1));
      1 in c.timers && c.timers[1].deadline == now + 5 && CanMove(c, Begin) && c.firing.value.id == 1
  {
    ms, d := FirstPop();
  }

  // ---------------------------------------------------------------- resets that are lost

  /** A one-shot whose callback is popped or running. */
  predicate FiringOneShot(d: Dog, id: TimerId) {
    d.firing.Some? && d.firing.value.id == id && !d.firing.value.recurring
  }

  /** Along the run `id` is neither cancelled nor popped. */
  predicate LeftAlone(d: Dog, ms: seq<Move>, id: TimerId)
    decreases |ms|
  {
    ms != [] && CanMove(d, ms[0]) ==>
      !(ms[0].Cancel? && ms[0].id == id) && !Fires(d, ms[0], id) && LeftAlone(Moved(d, ms[0]), ms[1..], id)
  }

  predicate Returns(ms: seq<Move>) {
    exists k :: 0 <= k < |ms| && ms[k].Finish?
  }

  lemma KeptStep(d: Dog, m: Move, id: TimerId)
    requires CanMove(d, m) && id in d.timers && id < d.nextId
    requires !(m.Cancel? && m.id == id) && !Fires(d, m, id)
    ensures var d' := Moved(d, m);
      && id < d'.nextId && (id in d'.timers <==> !(FiringOneShot(d, id) && m.Finish?))
      && (id in d'.timers ==> (FiringOneShot(d', id) <==> FiringOneShot(d, id) && !m.Finish?))
  {
  }

  lemma {:induction false} KeptExactly(d: Dog, ms: seq<Move>, d': Dog, id: TimerId)
    requires Steps(d, ms, d') && LeftAlone(d, ms, id) && id in d.timers && id < d.nextId
    ensures id in d'.timers <==> !(FiringOneShot(d, id) && Returns(ms))
    decreases |ms|
  {
    if ms != [] {
      hide Returns, Moved, CanMove, FiringOneShot, Fires;
      var m := Moved(d, ms[0]);
      ReturnsNext(ms);
      KeptStep(d, ms[0], id);
      if id in m.timers { KeptExactly(m, ms[1..], d', id); } else { GoneStays(m, ms[1..], d', id); }
    }
  }

  lemma ReturnsNext(ms: seq<Move>)
    requires ms != []
    ensures Returns(ms) <==> ms[0].Finish? || Returns(ms[1..])
  {
    if Returns(ms) {
      var k :| 0 <= k < |ms| && ms[k].Finish?;
      if k > 0 { assert ms[1..][k - 1] == ms[k]; }
    }
    if Returns(ms[1..]) {
      var k :| 0 <= k < |ms[1..]| && ms[1..][k].Finish?;
      assert ms[k + 1].Finish?;
    }
  }

  lemma {:induction false} GoneStays(d: Dog, ms: seq<Move>, d': Dog, id: TimerId)
    requires Steps(d, ms, d') && id < d.nextId && id !in d.timers
    ensures id !in d'.timers
    decreases |ms|
  {
    if ms != [] { GoneStays(Moved(d, ms[0]), ms[1..], d', id); }
  }

  /**
   * A timer whose reset() returned true and that is then left alone stays registered until
   * it is popped, with one exception and exactly that one: a one-shot whose callback was
   * popped or running at the reset is dropped when that callback returns, whoever reset it.
   */
  lemma ResetKeptExactly(a: seq<Move>, d: Dog, now: Time, id: TimerId, ms: seq<Move>, d': Dog)
    requires Steps(START, a, d) && id in d.timers
    requires Steps(Moved(d, Reset(now, id)), ms, d') && LeftAlone(Moved(d, Reset(now, id)), ms, id)
    ensures id in d'.timers <==> !(FiringOneShot(d, id) && Returns(ms))
  {
    StepsKeep(START, a, d);
    assert TimerOk(d, id);
    KeptExactly(Moved(d, Reset(now, id)), ms, d', id);
  }

  /** A one-shot reset while its callback runs is gone when the callback returns. */
  lemma ResetLost(now: Time) returns (a: seq<Move>, d: Dog, ms: seq<Move>, d': Dog)
    ensures Steps(START, a, d) && 1 in d.timers
    ensures Steps(Moved(d, Reset(now, 1)), ms, d') && LeftAlone(Moved(d, Reset(now, 1)), ms, 1) && 1 !in d'.timers
  {
    a, d := FirstPop();
    var c := Moved(d, Reset(now, 1));
    var b := Moved(c, Begin);
    d' := Moved(b, Finish(now));
    ms := [Begin, Finish(now)];
    assert Steps(d', [], d');
    Then(b, Finish(now), [], d');
    Then(c, Begin, [Finish(now)], d');
    assert ms == [Begin] + ([Finish(now)] + []);
    assert ms[1..] == [Finish(now)];
    assert LeftAlone(b, ms[1..], 1);
  }

  // ---------------------------------------------------------------- the object

  lemma {:induction false} Earliest(heap: multiset<Entry>) returns (e: Entry)
    requires heap != multiset{}
    ensures OnTop(heap, e)
    decreases |heap|
  {
    e :| e in heap;
    var rest := heap - multiset{e};
    if rest == multiset{} {
      assert heap == multiset{e};
    } else {
      var r := Earliest(rest);
      assert forall x :: x in heap ==> x == e || x in rest;
      if r.deadline < e.deadline { e := r; }
    }
  }

  lemma FreshId(d: Dog)
    requires DogInv(d)
    ensures d.nextId !in d.timers
  {
    assert d.nextId in d.timers ==> TimerOk(d, d.nextId);
  }

  lemma CurrentIsDue(d: Dog, e: Entry)
    requires DogInv(d) && e in d.heap && Current(d, e)
    ensures e.deadline == d.timers[e.id].deadline
  {
    assert TimerOk(d, e.id);
  }

  lemma OwnPeriod(d: Dog)
    requires DogInv(d) && d.firing.Some? && d.firing.value.id in d.timers
    ensures d.firing.value.period == d.timers[d.firing.value.id].period
  {
  }

  /** The lock-protected state; each method is one critical section. */
  class WatchdogTimers {
    var heap: multiset<Entry>
    var timers: map<TimerId, Timer>
    var nextId: TimerId
    var firing: Option<Firing>

    ghost function View(): Dog
      reads this
    {
      Dog(heap, timers, nextId, firing)
    }

    ghost predicate Valid()
      reads this
    {
      DogInv(View())
    }

    constructor ()
      ensures Valid() && View() == START
    {
      heap, timers, nextId, firing := multiset{}, map[], 1, None;
    }

    method AddTimer(now: Time, delay: Time, period: Option<Time>) returns (id: TimerId)
      requires Valid()
      modifies this
      ensures Valid() && id == old(nextId) && id !in old(timers)
      ensures View() == Moved(old(View()), Add(now, delay, period))
      ensures id in timers && timers[id].deadline == now + delay && timers[id].recurring == period.Some?
      ensures timers[id].period == if period.Some? then period.value else delay
    {
      hide DogInv;
      AddKeeps(View(), Add(now, delay, period));
      FreshId(View());
      id := nextId;
      nextId := nextId + 1;
      var t := Timer(now + delay, if period.Some? then period.value else delay, period.Some?, 0);
      heap := heap + multiset{Entry(t.deadline, id, 0)};
      timers := timers[id := t];
    }

    method ResetTimer(now: Time, id: TimerId) returns (found: bool)
      requires Valid()
      modifies this
      ensures Valid() && found == (id in old(timers)) && View() == Moved(old(View()), Reset(now, id))
      ensures found ==> id in timers && timers[id].deadline == now + timers[id].period
    {
      hide DogInv;
      if id !in timers { return false; }
      ResetKeeps(View(), now, id);
      var t := timers[id];
      t := t.(deadline := now + t.period, generation := t.generation + 1);
      timers := timers[id := t];
      heap := heap + multiset{Entry(t.deadline, id, t.generation)};
      return true;
    }

    method CancelTimer(id: TimerId) returns (erased: bool)
      requires Valid()
      modifies this
      ensures Valid() && erased == (id in old(timers)) && View() == Moved(old(View()), Cancel(id))
    {
      hide DogInv;
      CancelKeeps(View(), id);
      erased := id in timers;
      timers := timers - {id};
    }

    /** One turn of the worker: take the top entry if it is due, and say whose callback to run. */
    method TakeDue(now: Time) returns (run: Option<TimerId>)
      requires Valid() && firing.None?
      modifies this
      ensures Valid()
      ensures (forall e :: e in old(heap) ==> now < e.deadline) ==> run.None? && View() == old(View())
      ensures (exists e :: e in old(heap) && e.deadline <= now) ==>
        exists e :: CanMove(old(View()), Pop(now, e)) && View() == Moved(old(View()), Pop(now, e))
      ensures run == if firing.Some? then Some(firing.value.id) else None
      ensures run.Some? ==> run.value in timers && now >= timers[run.value].deadline && Running(View(), run.value)
    {
      hide DogInv;
      if heap == multiset{} { return None; }
      ghost var top := Earliest(heap);
      var e :| e in heap && OnTop(heap, e);
      assert OnTop(heap, e);
      if now < e.deadline { return None; }
      PopKeeps(View(), now, e);
      assert CanMove(View(), Pop(now, e));
      heap := heap - multiset{e};
      if e.id !in timers { return None; }
      if timers[e.id].generation != e.generation { return None; }
      CurrentIsDue(old(View()), e);
      firing := Some(Firing(e.id, e.generation, timers[e.id].recurring, timers[e.id].period, false));
      return Some(e.id);
    }

    /** The worker enters the callback; it holds no lock from here to `CallbackDone`. */
    method EnterCallback()
      requires Valid() && firing.Some? && !firing.value.begun
      modifies this`firing
      ensures Valid() && View() == Moved(old(View()), Begin)
    {
      hide DogInv;
      BeginKeeps(View());
      firing := Some(firing.value.(begun := true));
    }

    /** After the callback: a recurring timer left alone is armed again, a one-shot is dropped. */
    method CallbackDone(now: Time)
      requires Valid() && firing.Some? && firing.value.begun
      modifies this
      ensures Valid() && View() == Moved(old(View()), Finish(now)) && firing.None?
      ensures var id := old(firing).value.id;
        if !old(firing).value.recurring then id !in timers
        else if Running(old(View()), id) then id in timers && timers[id].deadline == now + old(timers[id].period)
        else timers == old(timers)
    {
      hide DogInv;
      FinishKeeps(View(), now);
      if firing.value.id in timers { OwnPeriod(View()); }
      var f := firing.value;
      firing := None;
      if f.recurring {
        if f.id in timers && timers[f.id].generation == f.generation {
          var t := timers[f.id].(deadline := now + f.period);
          timers := timers[f.id := t];
          heap := heap + multiset{Entry(t.deadline, f.id, t.generation)};
        }
      } else {
        timers := timers - {f.id};
      }
    }
  }
}
