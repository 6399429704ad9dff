/** The tracker over arbitrary sequences of reserve, resolve and retire. */
module TrackerRuns {
  import opened CraftTypes
  import opened Tracker

  /** reserve() is two steps, so other operations may fall between the counter and the slot. */
  datatype Op =
    | Count
    | Publish(d: Lsn, addr: nat, len: nat)
    | Settle(d: Lsn, oc: Outcome)
    | RetireUpTo(upto: Lsn, empties: set<Lsn>)

  predicate Allowed(t: Trk, op: Op) {
    match op
    case Count => true
    case Publish(d, addr, len) => UncreatedAt(t, d)
    case Settle(d, oc) => d in t.slots
    case RetireUpTo(upto, empties) => true
  }

  function Do(t: Trk, op: Op): (t': Trk)
    requires Allowed(t, op)
  {
    match op
    case Count => Bump(t)
    case Publish(d, addr, len) => Create(t, d, addr, len)
    case Settle(d, oc) => Resolve(t, d, oc)
    case RetireUpTo(upto, empties) => Retire(t, t.frontier + 1, Min(upto, t.next - 1), empties)
  }

  predicate Done(t: Trk, ops: seq<Op>, t': Trk)
    decreases |ops|
  {
    if ops == [] then t' == t else Allowed(t, ops[0]) && Done(Do(t, ops[0]), ops[1..], t')
  }

  /** Nothing once resolved changes, and the watermarks only rise. */
  ghost predicate Settled(t: Trk, t': Trk) {
    && t'.base == t.base && t.next <= t'.next && t.frontier <= t'.frontier && t.highestAcked <= t'.highestAcked
    && (forall d :: ResolvedAt(t, d) ==> d in t'.slots && t'.slots[d] == t.slots[d])
  }

  lemma OpExact(t: Trk, op: Op)
    requires TrkInv(t) && Allowed(t, op)
    ensures TrkInv(Do(t, op)) && Settled(t, Do(t, op))
  {
    match op
    case Count => BumpExact(t);
    case Publish(d, addr, len) => CreateExact(t, d, addr, len);
    case Settle(d, oc) => ResolveExact(t, d, oc);
    case RetireUpTo(upto, empties) => RetireExact(t, t.frontier + 1, Min(upto, t.next - 1), empties);
  }

  /**
   * After any sequence of operations F is exactly the longest resolved prefix and Ha
   * exactly the highest acked dLSN, and no resolved slot has changed on the way.
   */
  lemma {:induction false} FrontierExact(t: Trk, ops: seq<Op>, t': Trk)
    requires TrkInv(t) && Done(t, ops, t')
    ensures TrkInv(t') && Settled(t, t')
    decreases |ops|
  {
    if ops != [] {
      var m := Do(t, ops[0]);
      OpExact(t, ops[0]);
      FrontierExact(m, ops[1..], t');
      forall d | ResolvedAt(t, d) ensures d in t'.slots && t'.slots[d] == t.slots[d] { assert ResolvedAt(m, d); }
    }
  }
}
