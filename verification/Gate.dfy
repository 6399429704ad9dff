/**
 * The resolution gate: stalled readers wait on a one-shot event that a resolver swaps
 * out and completes. Every atomic access is one step; readers and resolvers interleave freely.
 */
module Gate {
  import opened CraftTypes

  type Event = nat

  /** Where a reader of plan_read is. `seen` is the number of resolves published when it re-tested. */
  datatype Reader =
    | Outside
    | Armed(ev: Event)
    | Entered(ev: Event)
    | Waiting(ev: Event, seen: nat)
    | Woken

  /** Where a resolver is. `v` numbers its publication. */
  datatype Resolver =
    | Resting
    | Published(v: nat)
    | Swapping(v: nat)
    | Completing(v: nat, taken: Event)

  datatype Gates = Gates(
    readers: map<nat, Reader>,
    resolvers: map<nat, Resolver>,
    cur: Event,
    nextEvent: Event,
    completed: set<Event>,
    waiters: nat,
    published: nat,
    finished: set<nat>)

  datatype Move =
    | Arm(r: nat)                    // capture the current event
    | Enter(r: nat)                  // count in
    | Retest(r: nat, stalled: bool)  // compute again; leave at once if no longer stalled
    | Wake(r: nat)                   // the awaited event is complete
    | Leave(r: nat)                  // count out
    | Publish(w: nat)                // a resolve becomes visible
    | Check(w: nat)                  // anybody waiting?
    | Swap(w: nat)                   // install a fresh event
    | Complete(w: nat)               // complete the old one

  predicate CanMove(g: Gates, m: Move) {
    match m
    case Arm(r) => r in g.readers && g.readers[r].Outside?
    case Enter(r) => r in g.readers && g.readers[r].Armed?
    case Retest(r, stalled) => r in g.readers && g.readers[r].Entered?
    case Wake(r) => r in g.readers && g.readers[r].Waiting? && g.readers[r].ev in g.completed
    case Leave(r) => r in g.readers && g.readers[r].Woken?
    case Publish(w) => w in g.resolvers && g.resolvers[w].Resting?
    case Check(w) => w in g.resolvers && g.resolvers[w].Published?
    case Swap(w) => w in g.resolvers && g.resolvers[w].Swapping?
    case Complete(w) => w in g.resolvers && g.resolvers[w].Completing?
  }

  function Moved(g: Gates, m: Move): (g': Gates)
    requires CanMove(g, m)
  {
    match m
    case Arm(r) => g.(readers := g.readers[r := Armed(g.cur)])
    case Enter(r) => g.(readers := g.readers[r := Entered(g.readers[r].ev)], waiters := g.waiters + 1)
    case Retest(r, stalled) =>
      if stalled then g.(readers := g.readers[r := Waiting(g.readers[r].ev, g.published)])
      else g.(readers := g.readers[r := Outside], waiters := if g.waiters > 0 then g.waiters - 1 else 0)
    case Wake(r) => g.(readers := g.readers[r := Woken])
    case Leave(r) => g.(readers := g.readers[r := Outside], waiters := if g.waiters > 0 then g.waiters - 1 else 0)
    case Publish(w) => g.(resolvers := g.resolvers[w := Published(g.published + 1)], published := g.published + 1)
    case Check(w) =>
      var v := g.resolvers[w].v;
      if g.waiters == 0 then g.(resolvers := g.resolvers[w := Resting], finished := g.finished + {v})
      else g.(resolvers := g.resolvers[w := Swapping(v)])
    case Swap(w) =>
      g.(resolvers := g.resolvers[w := Completing(g.resolvers[w].v, g.cur)],
         cur := g.nextEvent, nextEvent := g.nextEvent + 1)
    case Complete(w) =>
      g.(resolvers := g.resolvers[w := Resting], completed := g.completed + {g.resolvers[w].taken},
         finished := g.finished + {g.resolvers[w].v})
  }

  predicate Steps(g: Gates, ms: seq<Move>, g': Gates)
    decreases |ms|
  {
    if ms == [] then g' == g else CanMove(g, ms[0]) && Steps(Moved(g, ms[0]), ms[1..], g')
  }

  predicate Start(g: Gates) {
    && (forall r :: r in g.readers ==> g.readers[r].Outside?)
    && (forall w :: w in g.resolvers ==> g.resolvers[w].Resting?)
    && g.cur < g.nextEvent && g.completed == {} && g.waiters == 0 && g.finished == {}
  }

  // ---------------------------------------------------------------- the invariant

  predicate IsInside(x: Reader) {
    x.Entered? || x.Waiting? || x.Woken?
  }

  function Inside(g: Gates): (s: set<nat>)
    ensures forall r :: r in s <==> r in g.readers && IsInside(g.readers[r])
  {
    set r | r in g.readers && IsInside(g.readers[r])
  }

  /** Some resolver has swapped `ev` out and is about to complete it. */
  ghost predicate Owned(g: Gates, ev: Event) {
    exists w :: w in g.resolvers && g.resolvers[w].Completing? && g.resolvers[w].taken == ev
  }

  /** An event once current is current, complete, or about to be completed. */
  ghost predicate Accounted(g: Gates, ev: Event) {
    ev < g.nextEvent && (ev == g.cur || ev in g.completed || Owned(g, ev))
  }

  predicate Holds(x: Reader) {
    x.Armed? || x.Entered? || x.Waiting?
  }

  /** Publication `v` got past its swap. */
  ghost predicate Swapped(g: Gates, v: nat) {
    v in g.finished || exists w :: w in g.resolvers && g.resolvers[w].Completing? && g.resolvers[w].v == v
  }

  ghost predicate ReaderOk(g: Gates, r: nat)
    requires r in g.readers
  {
    && (Holds(g.readers[r]) ==> Accounted(g, g.readers[r].ev))
    && (g.readers[r].Waiting? ==> g.readers[r].seen <= g.published)
    && (g.readers[r].Waiting? ==> forall v: nat :: v > g.readers[r].seen && Swapped(g, v) ==> g.readers[r].ev != g.cur)
  }

  ghost predicate GateInv(g: Gates) {
    && g.cur < g.nextEvent && g.waiters == |Inside(g)|
    && (forall v :: v in g.finished ==> v <= g.published)
    && (forall w :: w in g.resolvers && !g.resolvers[w].Resting? ==> g.resolvers[w].v <= g.published)
    && (forall r :: r in g.readers ==> ReaderOk(g, r))
  }

  // ---------------------------------------------------------------- every move keeps it

  /** The head count follows one reader's move. */
  lemma HeadCount(g: Gates, g': Gates, r: nat)
    requires r in g.readers && r in g'.readers && g'.readers == g.readers[r := g'.readers[r]]
    requires g.waiters == |Inside(g)|
    requires var a, b := IsInside(g.readers[r]), IsInside(g'.readers[r]);
      g'.waiters == if a == b then g.waiters else if b then g.waiters + 1
                    else if g.waiters > 0 then g.waiters - 1 else 0
    ensures g'.waiters == |Inside(g')|
  {
    var rest := Inside(g) - {r};
    assert Inside(g) == if IsInside(g.readers[r]) then rest + {r} else rest;
    assert Inside(g') == if IsInside(g'.readers[r]) then rest + {r} else rest;
  }

  lemma ReaderMoves(g: Gates, m: Move)
    requires GateInv(g) && CanMove(g, m) && (m.Arm? || m.Enter? || m.Retest? || m.Wake? || m.Leave?)
    ensures GateInv(Moved(g, m))
  {
    var g' := Moved(g, m);
    HeadCount(g, g', m.r);
    assert forall ev: Event :: Owned(g, ev) == Owned(g', ev);
    assert forall v: nat :: Swapped(g, v) == Swapped(g', v);
    forall r | r in g'.readers ensures ReaderOk(g', r) {
      assert ReaderOk(g, r);
      if r == m.r && m.Retest? { assert forall v: nat :: Swapped(g, v) ==> v <= g.published; }
    }
  }

  lemma PublishKeeps(g: Gates, w: nat)
    requires GateInv(g) && CanMove(g, Publish(w))
    ensures GateInv(Moved(g, Publish(w)))
  {
    SameOwners(g, Moved(g, Publish(w)), w);
    ResolverMoves(g, Moved(g, Publish(w)), w);
  }

  /** A resolver that neither holds nor gets an event changes no ownership. */
  lemma SameOwners(g: Gates, g': Gates, w: nat)
    requires w in g.resolvers && w in g'.resolvers && g'.resolvers == g.resolvers[w := g'.resolvers[w]]
    requires !g.resolvers[w].Completing? && !g'.resolvers[w].Completing?
    ensures forall ev: Event :: Owned(g, ev) ==> Owned(g', ev)
    ensures forall v: nat :: Swapped(g', v) ==> Swapped(g, v) || v in g'.finished
  {
    forall ev: Event | Owned(g, ev) ensures Owned(g', ev) {
      var k :| k in g.resolvers && g.resolvers[k].Completing? && g.resolvers[k].taken == ev;
      assert g'.resolvers[k] == g.resolvers[k];
    }
    forall v: nat | Swapped(g', v) && v !in g'.finished ensures Swapped(g, v) {
      var k :| k in g'.resolvers && g'.resolvers[k].Completing? && g'.resolvers[k].v == v;
      assert g'.resolvers[k] == g.resolvers[k];
    }
  }

  /** A resolver's step keeps the invariant when it loses no event and swaps nothing under a waiting reader. */
  lemma ResolverMoves(g: Gates, g': Gates, w: nat)
    requires GateInv(g) && w in g.resolvers && g'.readers == g.readers && g'.waiters == g.waiters
    requires g.nextEvent <= g'.nextEvent && g'.cur < g'.nextEvent && g.published <= g'.published
    requires g.completed <= g'.completed
    requires w in g'.resolvers && g'.resolvers == g.resolvers[w := g'.resolvers[w]]
    requires !g'.resolvers[w].Resting? ==> g'.resolvers[w].v <= g'.published
    requires forall v :: v in g'.finished ==> v in g.finished || (!g.resolvers[w].Resting? && v == g.resolvers[w].v)
    requires forall ev: Event :: Accounted(g, ev) ==> Accounted(g', ev)
    requires forall r :: r in g.readers && g.readers[r].Waiting? ==>
      forall v: nat :: v > g.readers[r].seen && Swapped(g', v) ==> g.readers[r].ev != g'.cur
    ensures GateInv(g')
  {
    assert Inside(g') == Inside(g);
    forall r | r in g'.readers ensures ReaderOk(g', r) { assert ReaderOk(g, r); }
  }

  lemma CheckKeeps(g: Gates, w: nat)
    requires GateInv(g) && CanMove(g, Check(w))
    ensures GateInv(Moved(g, Check(w)))
  {
    var g' := Moved(g, Check(w));
    SameOwners(g, g', w);
    forall r | r in g.readers && g.readers[r].Waiting?
      ensures forall v: nat :: v > g.readers[r].seen && Swapped(g', v) ==> g.readers[r].ev != g'.cur
    {
      assert ReaderOk(g, r);
      SubsetSize({r}, Inside(g));
      assert forall v: nat :: Swapped(g', v) ==> Swapped(g, v);
    }
    ResolverMoves(g, g', w);
  }

  lemma SwapKeeps(g: Gates, w: nat)
    requires GateInv(g) && CanMove(g, Swap(w))
    ensures GateInv(Moved(g, Swap(w)))
  {
    var g' := Moved(g, Swap(w));
    forall ev: Event | Accounted(g, ev) ensures Accounted(g', ev) {
      if ev == g.cur {
        assert g'.resolvers[w].Completing? && g'.resolvers[w].taken == ev;
      } else if Owned(g, ev) {
        var k :| k in g.resolvers && g.resolvers[k].Completing? && g.resolvers[k].taken == ev;
        assert g'.resolvers[k] == g.resolvers[k];
      }
    }
    forall r | r in g.readers && g.readers[r].Waiting?
      ensures forall v: nat :: v > g.readers[r].seen && Swapped(g', v) ==> g.readers[r].ev != g'.cur
    {
      assert ReaderOk(g, r);
    }
    ResolverMoves(g, g', w);
  }

  lemma CompleteKeeps(g: Gates, w: nat)
    requires GateInv(g) && CanMove(g, Complete(w))
    ensures GateInv(Moved(g, Complete(w)))
  {
    var g' := Moved(g, Complete(w));
    forall ev: Event | Accounted(g, ev) ensures Accounted(g', ev) {
      if Owned(g, ev) {
        var k :| k in g.resolvers && g.resolvers[k].Completing? && g.resolvers[k].taken == ev;
        if k != w { assert g'.resolvers[k] == g.resolvers[k]; }
      }
    }
    forall v: nat | Swapped(g', v) ensures Swapped(g, v) {
      if v !in g'.finished {
        var k :| k in g'.resolvers && g'.resolvers[k].Completing? && g'.resolvers[k].v == v;
        assert g'.resolvers[k] == g.resolvers[k];
      }
    }
    forall r | r in g.readers && g.readers[r].Waiting?
      ensures forall v: nat :: v > g.readers[r].seen && Swapped(g', v) ==> g.readers[r].ev != g'.cur
    {
      assert ReaderOk(g, r);
    }
    ResolverMoves(g, g', w);
  }

  lemma {:induction false} StepsKeep(g: Gates, ms: seq<Move>, g': Gates)
    requires GateInv(g) && Steps(g, ms, g')
    ensures GateInv(g')
    decreases |ms|
  {
    if ms != [] {
      match ms[0] {
        case Publish(w) => PublishKeeps(g, w);
        case Check(w) => CheckKeeps(g, w);
        case Swap(w) => SwapKeeps(g, w);
        case Complete(w) => CompleteKeeps(g, w);
        case _ => ReaderMoves(g, ms[0]);
      }
      StepsKeep(Moved(g, ms[0]), ms[1..], g');
    }
  }

  lemma StartOk(g: Gates)
    requires Start(g)
    ensures GateInv(g)
  {
    assert Inside(g) == {};
  }

  // ---------------------------------------------------------------- every event has one owner

  predicate Takes(g: Gates, w: nat) {
    w in g.resolvers && g.resolvers[w].Completing?
  }

  ghost predicate TakenOk(g: Gates, w: nat)
    requires w in g.resolvers
  {
    g.resolvers[w].Completing? ==>
      var ev := g.resolvers[w].taken;
      ev < g.nextEvent && ev != g.cur && ev !in g.completed
  }

  /** The current event and those swapped out are not complete, and nobody else has them. */
  ghost predicate EventsOk(g: Gates) {
    && g.cur < g.nextEvent && g.cur !in g.completed && (forall ev :: ev in g.completed ==> ev < g.nextEvent)
    && (forall w :: w in g.resolvers ==> TakenOk(g, w))
    && (forall v, w :: v != w && Takes(g, v) && Takes(g, w) ==> g.resolvers[v].taken != g.resolvers[w].taken)
  }

  lemma EventsKept(g: Gates, m: Move)
    requires EventsOk(g) && CanMove(g, m)
    ensures EventsOk(Moved(g, m))
  {
    var g' := Moved(g, m);
    forall w | w in g'.resolvers ensures TakenOk(g', w) { assert TakenOk(g, w); }
  }

  lemma {:induction false} EventsKeep(g: Gates, ms: seq<Move>, g': Gates)
    requires EventsOk(g) && Steps(g, ms, g')
    ensures EventsOk(g')
    decreases |ms|
  {
    if ms != [] {
      EventsKept(g, ms[0]);
      EventsKeep(Moved(g, ms[0]), ms[1..], g');
    }
  }

  // ---------------------------------------------------------------- wakeups

  /**
   * Once a resolve published after a reader's re-test has finished signalling, the event
   * that reader waits on is complete unless some resolver has swapped it out and not
   * completed it yet, and exactly then.
   */
  lemma NoLostWakeup(g0: Gates, ms: seq<Move>, g: Gates, r: nat, v: nat)
    requires Start(g0) && Steps(g0, ms, g)
    requires r in g.readers && g.readers[r].Waiting? && v in g.finished && v > g.readers[r].seen
    ensures g.readers[r].ev in g.completed <==> !Owned(g, g.readers[r].ev)
    ensures CanMove(g, Wake(r)) <==> !Owned(g, g.readers[r].ev)
  {
    StartOk(g0);
    StepsKeep(g0, ms, g);
    EventsKeep(g0, ms, g);
    assert ReaderOk(g, r) && Swapped(g, v);
    if Owned(g, g.readers[r].ev) {
      var w :| w in g.resolvers && g.resolvers[w].Completing? && g.resolvers[w].taken == g.readers[r].ev;
      assert TakenOk(g, w);
    }
  }

  /** So when no resolver is in the middle of a signal, such a reader can go on. */
  lemma QuietMeansAwake(g0: Gates, ms: seq<Move>, g: Gates, r: nat, v: nat)
    requires Start(g0) && Steps(g0, ms, g)
    requires r in g.readers && g.readers[r].Waiting? && v in g.finished && v > g.readers[r].seen
    requires forall w :: w in g.resolvers ==> !g.resolvers[w].Completing?
    ensures CanMove(g, Wake(r))
  {
    NoLostWakeup(g0, ms, g, r, v);
  }

  /** An owned event is one move away from waking its readers. */
  lemma OwnerWakes(g0: Gates, ms: seq<Move>, g: Gates, r: nat, v: nat)
    requires Start(g0) && Steps(g0, ms, g)
    requires r in g.readers && g.readers[r].Waiting? && v in g.finished && v > g.readers[r].seen
    ensures CanMove(g, Wake(r)) || exists w :: CanMove(g, Complete(w)) && CanMove(Moved(g, Complete(w)), Wake(r))
  {
    NoLostWakeup(g0, ms, g, r, v);
    if Owned(g, g.readers[r].ev) {
      var w :| w in g.resolvers && g.resolvers[w].Completing? && g.resolvers[w].taken == g.readers[r].ev;
      assert CanMove(g, Complete(w)) && CanMove(Moved(g, Complete(w)), Wake(r));
    }
  }

  /**
   * A resolve can finish signalling while a reader that re-tested before it sleeps on: an
   * earlier resolver has swapped the reader's event out and not completed it yet, so the
   * later one swaps and completes the next event.
   */
  lemma LateWakeup() returns (g0: Gates, ms: seq<Move>, g: Gates)
    ensures Start(g0) && Steps(g0, ms, g)
    ensures 0 in g.readers && g.readers[0].Waiting? && 2 in g.finished && 2 > g.readers[0].seen
    ensures g.readers[0].ev !in g.completed && !CanMove(g, Wake(0))
  {
    g0 := Gates(map[0 := Outside], map[0 := Resting, 1 := Resting], 0, 1, {}, 0, 0, {});
    var mid := Gates(map[0 := Waiting(0, 0)], map[0 := Completing(1, 0), 1 := Resting], 1, 2, {}, 1, 1, {});
    var late: seq<Move>;
    late, g := SecondResolver(mid);
    ms := FirstResolver(g0, mid, late, g);
  }

  /** Reader 0 waits on event 0, which resolver 0 has swapped out. */
  lemma FirstResolver(g0: Gates, mid: Gates, late: seq<Move>, g: Gates) returns (ms: seq<Move>)
    requires g0 == Gates(map[0 := Outside], map[0 := Resting, 1 := Resting], 0, 1, {}, 0, 0, {})
    requires mid == Gates(map[0 := Waiting(0, 0)], map[0 := Completing(1, 0), 1 := Resting], 1, 2, {}, 1, 1, {})
    requires Steps(mid, late, g)
    ensures Steps(g0, ms, g)
  {
    hide Steps;
    var g1 := Moved(g0, Arm(0));
    var g2 := Moved(g1, Enter(0));
    var g3 := Moved(g2, Retest(0, true));
    var g4 := Moved(g3, Publish(0));
    var g5 := Moved(g4, Check(0));
    assert Moved(g5, Swap(0)) == mid;
    ms := Before(g5, Swap(0), late, g);
    ms := Before(g4, Check(0), ms, g);
    ms := Before(g3, Publish(0), ms, g);
    ms := Before(g2, Retest(0, true), ms, g);
    ms := Before(g1, Enter(0), ms, g);
    ms := Before(g0, Arm(0), ms, g);
  }

  /** Resolver 1 publishes, swaps the next event and completes it. */
  lemma SecondResolver(mid: Gates) returns (ms: seq<Move>, g: Gates)
    requires mid == Gates(map[0 := Waiting(0, 0)], map[0 := Completing(1, 0), 1 := Resting], 1, 2, {}, 1, 1, {})
    ensures Steps(mid, ms, g) && g.readers == mid.readers && g.completed == {1} && g.finished == {2}
  {
    var g1 := Moved(mid, Publish(1));
    var g2 := Moved(g1, Check(1));
    var g3 := Moved(g2, Swap(1));
    g := Moved(g3, Complete(1));
    assert Steps(g, [], g);
    hide Steps;
    ms := Before(g3, Complete(1), [], g);
    ms := Before(g2, Swap(1), ms, g);
    ms := Before(g1, Check(1), ms, g);
    ms := Before(mid, Publish(1), ms, g);
  }

  lemma Before(g: Gates, m: Move, ms: seq<Move>, g': Gates) returns (all: seq<Move>)
    requires CanMove(g, m) && Steps(Moved(g, m), ms, g')
    ensures all == [m] + ms && Steps(g, all, g')
  {
    all := [m] + ms;
    assert all[1..] == ms;
  }
}
