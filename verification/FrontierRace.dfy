/**
 * Concurrent resolvers advancing the frontier without a lock: each sets its completion
 * bit, loads F, scans the completed run above it and publishes by compare-and-swap.
 */
module FrontierRace {
  import opened CraftTypes
  import opened Tracker

  /** Where a resolver is in advance_frontier(). */
  datatype Resolver = Idle | Marked | Loaded(f: Lsn) | Scanned(f: Lsn, nf: Lsn)

  datatype Race = Race(base: Lsn, next: Lsn, done: set<Lsn>, frontier: Lsn, threads: map<nat, Resolver>)

  datatype Move =
    | Reserve                      // another dLSN is issued
    | Mark(t: nat, d: Lsn)         // set the completion bit of `d`
    | Load(t: nat)                 // read F
    | Scan(t: nat)                 // completed_upto, clamped; return if nothing new
    | Swap(t: nat, spurious: bool) // compare_exchange_weak, which may fail for no reason

  predicate CanMove(r: Race, m: Move) {
    match m
    case Reserve => true
    case Mark(t, d) => t in r.threads && r.threads[t].Idle? && r.base < d < r.next && d !in r.done
    case Load(t) => t in r.threads && r.threads[t].Marked?
    case Scan(t) => t in r.threads && r.threads[t].Loaded?
    case Swap(t, spurious) => t in r.threads && r.threads[t].Scanned?
  }

  function Moved(r: Race, m: Move): (r': Race)
    requires CanMove(r, m)
  {
    match m
    case Reserve => r.(next := r.next + 1)
    case Mark(t, d) => r.(done := r.done + {d}, threads := r.threads[t := Marked])
    case Load(t) => r.(threads := r.threads[t := Loaded(r.frontier)])
    case Scan(t) =>
      var f := r.threads[t].f;
      var nf := Min(CompletedUpTo(r.done, f + 1), r.next - 1);
      r.(threads := r.threads[t := if nf <= f then Idle else Scanned(f, nf)])
    case Swap(t, spurious) =>
      if r.frontier == r.threads[t].f && !spurious
      then r.(frontier := r.threads[t].nf, threads := r.threads[t := Idle])
      else r.(threads := r.threads[t := Loaded(r.frontier)])
  }

  predicate Steps(r: Race, ms: seq<Move>, r': Race)
    decreases |ms|
  {
    if ms == [] then r' == r else CanMove(r, ms[0]) && Steps(Moved(r, ms[0]), ms[1..], r')
  }

  predicate Start(r: Race) {
    r.next == r.base + 1 && r.frontier == r.base && r.done == {} && forall t :: t in r.threads ==> r.threads[t].Idle?
  }

  // ---------------------------------------------------------------- the invariant

  /** Everything in (base, e] is completed. */
  ghost predicate Full(r: Race, e: Lsn) {
    r.base <= e < r.next && forall d :: r.base < d <= e ==> d in r.done
  }

  ghost predicate ThreadOk(r: Race, t: nat)
    requires t in r.threads
  {
    match r.threads[t]
    case Loaded(f) => r.base <= f <= r.frontier
    case Scanned(f, nf) => r.base <= f <= r.frontier && f < nf && Full(r, nf)
    case _ => true
  }

  /** The end of the completed run the frontier stands in. */
  function Target(r: Race): Lsn {
    CompletedUpTo(r.done, r.frontier + 1)
  }

  /** Some resolver is going to publish at least `e`, or will look again. */
  ghost predicate Coming(r: Race, e: Lsn) {
    exists t :: t in r.threads && Brings(r.threads[t], e)
  }

  predicate Brings(x: Resolver, e: Lsn) {
    x.Marked? || x.Loaded? || (x.Scanned? && x.nf >= e)
  }

  ghost predicate RaceInv(r: Race) {
    && (forall d :: d in r.done ==> r.base < d < r.next)
    && Full(r, r.frontier)
    && (forall t :: t in r.threads ==> ThreadOk(r, t))
    && (Target(r) > r.frontier ==> Coming(r, Target(r)))
  }

  lemma OthersStillBring(r: Race, r': Race, t: nat, e: Lsn)
    requires t in r.threads && t in r'.threads && r'.threads == r.threads[t := r'.threads[t]]
    requires Coming(r, e) && (Brings(r.threads[t], e) ==> Brings(r'.threads[t], e))
    ensures Coming(r', e)
  {
    var k :| k in r.threads && Brings(r.threads[k], e);
    assert k in r'.threads && Brings(r'.threads[k], e);
  }

  lemma ScanFindsTarget(r: Race, f: Lsn)
    requires RaceInv(r) && r.base <= f <= r.frontier
    ensures CompletedUpTo(r.done, f + 1) == Target(r) < r.next
  {
    var a, b := CompletedUpTo(r.done, f + 1), Target(r);
    assert a < b ==> a + 1 in r.done;
    assert b < a ==> b + 1 in r.done;
    assert b > r.frontier ==> b in r.done;
  }

  lemma ReserveKeeps(r: Race)
    requires RaceInv(r)
    ensures RaceInv(Moved(r, Reserve))
  {
    var r' := Moved(r, Reserve);
    forall t | t in r'.threads ensures ThreadOk(r', t) { assert ThreadOk(r, t); }
    if Target(r') > r'.frontier {
      var k :| k in r.threads && Brings(r.threads[k], Target(r));
      assert Brings(r'.threads[k], Target(r'));
    }
  }

  lemma MarkKeeps(r: Race, t: nat, d: Lsn)
    requires RaceInv(r) && CanMove(r, Mark(t, d))
    ensures RaceInv(Moved(r, Mark(t, d)))
  {
    var r' := Moved(r, Mark(t, d));
    forall k | k in r'.threads ensures ThreadOk(r', k) { assert ThreadOk(r, k); }
    assert Brings(r'.threads[t], Target(r'));
  }

  lemma LoadKeeps(r: Race, t: nat)
    requires RaceInv(r) && CanMove(r, Load(t))
    ensures RaceInv(Moved(r, Load(t)))
  {
    var r' := Moved(r, Load(t));
    forall k | k in r'.threads ensures ThreadOk(r', k) { assert ThreadOk(r, k); }
    assert Brings(r'.threads[t], Target(r'));
  }

  lemma ScanKeeps(r: Race, t: nat)
    requires RaceInv(r) && CanMove(r, Scan(t))
    ensures RaceInv(Moved(r, Scan(t)))
  {
    var r' := Moved(r, Scan(t));
    assert ThreadOk(r, t);
    ScanFindsTarget(r, r.threads[t].f);
    forall k | k in r'.threads ensures ThreadOk(r', k) { assert ThreadOk(r, k); }
    if Target(r) > r.frontier { OthersStillBring(r, r', t, Target(r)); }
  }

  lemma SwapKeeps(r: Race, t: nat, spurious: bool)
    requires RaceInv(r) && CanMove(r, Swap(t, spurious))
    ensures RaceInv(Moved(r, Swap(t, spurious)))
  {
    var r' := Moved(r, Swap(t, spurious));
    assert ThreadOk(r, t);
    forall k | k in r'.threads ensures ThreadOk(r', k) { assert ThreadOk(r, k); }
    if r'.threads[t].Loaded? {
      assert Brings(r'.threads[t], Target(r'));
    } else {
      var nf := r.threads[t].nf;
      RunEndStays(r.done, r.frontier, nf);
      if Target(r') > nf { OthersStillBring(r, r', t, Target(r)); }
    }
  }

  /** Moving up inside a completed run does not change where it ends. */
  lemma RunEndStays(done: set<Lsn>, f: Lsn, nf: Lsn)
    requires f <= nf && forall d :: f < d <= nf ==> d in done
    ensures CompletedUpTo(done, nf + 1) == CompletedUpTo(done, f + 1)
  {
    var a, b := CompletedUpTo(done, f + 1), CompletedUpTo(done, nf + 1);
    assert a < b ==> a + 1 in done;
    assert b < a ==> b + 1 in done;
  }

  lemma {:induction false} StepsKeep(r: Race, ms: seq<Move>, r': Race)
    requires RaceInv(r) && Steps(r, ms, r')
    ensures RaceInv(r')
    decreases |ms|
  {
    if ms != [] {
      match ms[0] {
        case Reserve => ReserveKeeps(r);
        case Mark(t, d) => MarkKeeps(r, t, d);
        case Load(t) => LoadKeeps(r, t);
        case Scan(t) => ScanKeeps(r, t);
        case Swap(t, spurious) => SwapKeeps(r, t, spurious);
      }
      StepsKeep(Moved(r, ms[0]), ms[1..], r');
    }
  }

  // ---------------------------------------------------------------- the theorem

  /**
   * In every interleaving F never passes an uncompleted dLSN, and whenever no resolver is
   * under way it is exactly the longest completed prefix: no advance is ever lost.
   */
  lemma NoAdvanceLost(r0: Race, ms: seq<Move>, r: Race)
    requires Start(r0) && Steps(r0, ms, r)
    ensures forall d :: r.base < d <= r.frontier ==> d in r.done
    ensures (forall t :: t in r.threads ==> r.threads[t].Idle?) ==> r.frontier + 1 !in r.done
  {
    StepsKeep(r0, ms, r);
  }
}
