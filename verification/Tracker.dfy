/**
 * The client's dLSN bookkeeping: the counter, the slots in flight, the contiguous
 * resolved frontier F, the highest acked dLSN Ha and the resolution want.
 */
module Tracker {
  import opened CraftTypes

  /** `Acked` and `Void` (the source's `empty`) are resolved; the other two pin the frontier. */
  datatype Outcome = InFlight | Acked | Failed | Void

  predicate IsResolved(o: Outcome) {
    o.Acked? || o.Void?
  }

  /** One reserved write: its byte range and what became of it. */
  datatype Entry = Entry(addr: nat, len: nat, outcome: Outcome)

  /**
   * `base` is the login dLSN the window starts above; `done` holds the completion
   * bits; a dLSN below `next` with no slot was counted but its slot is not visible yet.
   */
  datatype Trk = Trk(
    base: Lsn,
    next: Lsn,
    frontier: Lsn,
    highestAcked: Lsn,
    want: Lsn,
    slots: map<Lsn, Entry>,
    done: set<Lsn>)

  /** The end of the completed run starting at `h`, or `h - 1` when `h` itself is not completed. */
  function CompletedUpTo(done: set<Lsn>, h: Lsn): (e: Lsn)
    ensures e >= h - 1 && e + 1 !in done
    ensures forall d :: h <= d <= e ==> d in done
    decreases done
  {
    if h in done then
      var e := CompletedUpTo(done - {h}, h + 1);
      assert forall d :: h <= d <= e ==> d in done;
      e
    else h - 1
  }

  function ResetAt(login: Lsn): (t: Trk) {
    Trk(login, login + 1, login, login, -1, map[], {})
  }

  predicate ResolvedAt(t: Trk, d: Lsn) {
    d in t.slots && IsResolved(t.slots[d].outcome)
  }

  predicate AckedAt(t: Trk, d: Lsn) {
    d in t.slots && t.slots[d].outcome.Acked?
  }

  /** A dLSN counted by reserve() whose slot is not visible yet. */
  predicate UncreatedAt(t: Trk, d: Lsn) {
    t.base < d < t.next && d !in t.slots
  }

  /** F is exactly the longest resolved prefix and Ha exactly the highest acked dLSN. */
  ghost predicate TrkInv(t: Trk) {
    && -1 <= t.base
    && (forall d :: d in t.slots ==> t.base < d < t.next)
    && (forall d :: d in t.done <==> ResolvedAt(t, d))
    && t.base <= t.frontier < t.next
    && (forall d :: t.base < d <= t.frontier ==> d in t.done)
    && t.frontier + 1 !in t.done
    && t.base <= t.highestAcked
    && (t.highestAcked == t.base || AckedAt(t, t.highestAcked))
    && (forall d :: AckedAt(t, d) ==> d <= t.highestAcked)
  }

  // ---------------------------------------------------------------- operations

  /** First half of reserve(): take the next dLSN. */
  function Bump(t: Trk): (t': Trk) {
    t.(next := t.next + 1)
  }

  /** Second half of reserve(): publish the slot. */
  function Create(t: Trk, d: Lsn, addr: nat, len: nat): (t': Trk) {
    t.(slots := t.slots[d := Entry(addr, len, InFlight)])
  }

  function AdvanceFrontier(t: Trk): (t': Trk) {
    var nf := Min(CompletedUpTo(t.done, t.frontier + 1), t.next - 1);
    if nf <= t.frontier then t else t.(frontier := nf)
  }

  /** resolve(): a slot already resolved is left alone. */
  function Resolve(t: Trk, d: Lsn, oc: Outcome): (t': Trk)
    requires d in t.slots
  {
    if IsResolved(t.slots[d].outcome) then t else
    var t1 := t.(slots := t.slots[d := t.slots[d].(outcome := oc)],
                 done := if IsResolved(oc) then t.done + {d} else t.done,
                 highestAcked := if oc.Acked? then Max(t.highestAcked, d) else t.highestAcked);
    if IsResolved(oc) then AdvanceFrontier(t1) else t1
  }

  /** One dLSN of a retire: a visible unresolved slot becomes Void when listed, acked otherwise. */
  function RetireOne(t: Trk, d: Lsn, empties: set<Lsn>): (t': Trk) {
    if d in t.slots && !IsResolved(t.slots[d].outcome)
    then Resolve(t, d, if d in empties then Void else Acked)
    else t
  }

  /** retire_upto() over [d, hi]. */
  function Retire(t: Trk, d: Lsn, hi: Lsn, empties: set<Lsn>): (t': Trk)
    decreases hi - d + 1
  {
    if d > hi then t else Retire(RetireOne(t, d, empties), d + 1, hi, empties)
  }

  // ---------------------------------------------------------------- exactness

  lemma ResetExact(login: Lsn)
    requires -1 <= login
    ensures TrkInv(ResetAt(login))
  {
  }

  lemma WantExact(t: Trk, w: Lsn)
    requires TrkInv(t)
    ensures TrkInv(t.(want := w))
  {
    var t' := t.(want := w);
    forall d ensures ResolvedAt(t', d) == ResolvedAt(t, d) && AckedAt(t', d) == AckedAt(t, d) { }
  }

  lemma BumpExact(t: Trk)
    requires TrkInv(t)
    ensures TrkInv(Bump(t))
  {
    var t' := Bump(t);
    assert forall d :: ResolvedAt(t', d) == ResolvedAt(t, d) && AckedAt(t', d) == AckedAt(t, d);
  }

  lemma CreateExact(t: Trk, d: Lsn, addr: nat, len: nat)
    requires TrkInv(t) && UncreatedAt(t, d)
    ensures TrkInv(Create(t, d, addr, len))
  {
    var t' := Create(t, d, addr, len);
    assert forall e :: ResolvedAt(t', e) == ResolvedAt(t, e) && AckedAt(t', e) == AckedAt(t, e);
  }

  /** Resolving touches only outcomes and watermarks, and the watermarks only rise. */
  ghost predicate Grows(t: Trk, t': Trk) {
    && t'.base == t.base && t'.next == t.next && t'.want == t.want
    && t'.slots.Keys == t.slots.Keys
    && t.frontier <= t'.frontier && t.highestAcked <= t'.highestAcked
  }

  /** Completing one more bit and re-running the frontier search leaves F exact. */
  lemma AdvanceExact(t: Trk)
    requires t.base <= t.frontier < t.next && t.next !in t.done
    requires forall d :: t.base < d <= t.frontier ==> d in t.done
    ensures var t' := AdvanceFrontier(t);
      && t' == t.(frontier := t'.frontier)
      && t.frontier <= t'.frontier < t.next
      && t'.frontier + 1 !in t.done
      && (forall d :: t.base < d <= t'.frontier ==> d in t.done)
  {
    assert CompletedUpTo(t.done, t.frontier + 1) < t.next;
  }

  /** What one resolve changes, and that it leaves F and Ha exact. */
  lemma ResolveExact(t: Trk, d: Lsn, oc: Outcome)
    requires TrkInv(t) && d in t.slots
    ensures var t' := Resolve(t, d, oc);
      && TrkInv(t')
      && Grows(t, t')
      && t'.slots == (if ResolvedAt(t, d) then t.slots else t.slots[d := t.slots[d].(outcome := oc)])
  {
    hide AdvanceFrontier, AckedAt;
    if !ResolvedAt(t, d) {
      var t1 := t.(slots := t.slots[d := t.slots[d].(outcome := oc)],
                   done := if IsResolved(oc) then t.done + {d} else t.done,
                   highestAcked := if oc.Acked? then Max(t.highestAcked, d) else t.highestAcked);
      MarkExact(t, t1, d, oc);
      if IsResolved(oc) {
        AdvanceExact(t1);
        SameSlotsSameMarks(t1, AdvanceFrontier(t1));
      }
    }
  }

  lemma SameSlotsSameMarks(t: Trk, t': Trk)
    requires t'.slots == t.slots
    ensures forall e :: ResolvedAt(t', e) == ResolvedAt(t, e)
    ensures forall e :: AckedAt(t', e) == AckedAt(t, e)
  {
  }

  /** Writing one outcome: completion bits and Ha follow it. */
  lemma MarkExact(t: Trk, t1: Trk, d: Lsn, oc: Outcome)
    requires TrkInv(t) && d in t.slots && !ResolvedAt(t, d)
    requires t1.base == t.base && t1.slots == t.slots[d := t.slots[d].(outcome := oc)]
    requires t1.done == if IsResolved(oc) then t.done + {d} else t.done
    requires t1.highestAcked == if oc.Acked? then Max(t.highestAcked, d) else t.highestAcked
    ensures forall e :: e in t1.done <==> ResolvedAt(t1, e)
    ensures t.highestAcked <= t1.highestAcked
    ensures t1.highestAcked == t1.base || AckedAt(t1, t1.highestAcked)
    ensures forall e :: AckedAt(t1, e) ==> e <= t1.highestAcked
    ensures t.next !in t1.done && t1.slots.Keys == t.slots.Keys
    ensures forall e :: e in t.done ==> e in t1.done
  {
    assert forall e :: e != d ==> ResolvedAt(t1, e) == ResolvedAt(t, e) && AckedAt(t1, e) == AckedAt(t, e);
    assert t.next !in t.done;
  }

  ghost function RetiredOutcome(t: Trk, d: Lsn, lo: Lsn, hi: Lsn, empties: set<Lsn>): (o: Outcome)
    requires d in t.slots
  {
    var cur := t.slots[d].outcome;
    if lo <= d <= hi && !IsResolved(cur) then (if d in empties then Void else Acked) else cur
  }

  lemma RetireOneExact(t: Trk, d: Lsn, empties: set<Lsn>)
    requires TrkInv(t)
    ensures TrkInv(RetireOne(t, d, empties)) && Grows(t, RetireOne(t, d, empties))
    ensures forall e :: e in t.slots ==>
      RetireOne(t, d, empties).slots[e] == t.slots[e].(outcome := RetiredOutcome(t, e, d, d, empties))
  {
    if d in t.slots { ResolveExact(t, d, if d in empties then Void else Acked); }
  }

  lemma {:induction false} RetireKeeps(t: Trk, lo: Lsn, hi: Lsn, empties: set<Lsn>)
    requires TrkInv(t)
    ensures TrkInv(Retire(t, lo, hi, empties)) && Grows(t, Retire(t, lo, hi, empties))
    decreases hi - lo + 1
  {
    if lo <= hi {
      RetireOneExact(t, lo, empties);
      RetireKeeps(RetireOne(t, lo, empties), lo + 1, hi, empties);
    }
  }

  /** What a retire does to one slot. */
  lemma {:induction false} RetireAt(t: Trk, lo: Lsn, hi: Lsn, empties: set<Lsn>, d: Lsn)
    requires TrkInv(t) && d in t.slots
    ensures d in Retire(t, lo, hi, empties).slots
    ensures Retire(t, lo, hi, empties).slots[d] ==
            t.slots[d].(outcome := RetiredOutcome(t, d, lo, hi, empties))
    decreases hi - lo + 1
  {
    if lo <= hi {
      RetireOneExact(t, lo, empties);
      RetireAt(RetireOne(t, lo, empties), lo + 1, hi, empties, d);
    }
  }

  /** Slot by slot effect of a retire; F and Ha stay exact. */
  lemma RetireExact(t: Trk, lo: Lsn, hi: Lsn, empties: set<Lsn>)
    requires TrkInv(t)
    ensures var t' := Retire(t, lo, hi, empties);
      && TrkInv(t')
      && Grows(t, t')
      && (forall d :: d in t.slots ==>
            t'.slots[d] == t.slots[d].(outcome := RetiredOutcome(t, d, lo, hi, empties)))
  {
    RetireKeeps(t, lo, hi, empties);
    forall d | d in t.slots
      ensures Retire(t, lo, hi, empties).slots[d] ==
              t.slots[d].(outcome := RetiredOutcome(t, d, lo, hi, empties))
    {
      RetireAt(t, lo, hi, empties, d);
    }
  }

  /** After a round the frontier covers it, unless a counted dLSN is still uncreated. */
  lemma RetireReaches(t: Trk, upto: Lsn, empties: set<Lsn>)
    requires TrkInv(t)
    ensures var hi := Min(upto, t.next - 1);
      var t' := Retire(t, t.frontier + 1, hi, empties);
      t'.frontier >= hi <==> forall d :: d <= hi ==> !UncreatedAt(t, d)
  {
    var hi := Min(upto, t.next - 1);
    var t' := Retire(t, t.frontier + 1, hi, empties);
    RetireExact(t, t.frontier + 1, hi, empties);
    forall d | t.frontier < d <= hi ensures d in t'.done <==> !UncreatedAt(t, d) {
      assert d in t'.done <==> ResolvedAt(t', d);
    }
    forall d | d <= t.frontier ensures !UncreatedAt(t, d) {
      assert t.base < d ==> ResolvedAt(t, d);
    }
    assert t'.frontier + 1 !in t'.done;
  }

  /** The watermarks are a function of the slots: F and Ha carry no history of their own. */
  lemma WatermarksDetermined(a: Trk, b: Trk)
    requires TrkInv(a) && TrkInv(b)
    requires a.base == b.base && a.slots == b.slots
    ensures a.done == b.done && a.frontier == b.frontier && a.highestAcked == b.highestAcked
  {
    forall d ensures d in a.done <==> d in b.done {
      assert ResolvedAt(a, d) == ResolvedAt(b, d);
    }
    assert a.frontier < b.frontier ==> a.frontier + 1 in b.done;
    assert b.frontier < a.frontier ==> b.frontier + 1 in a.done;
    assert AckedAt(a, b.highestAcked) == AckedAt(b, b.highestAcked);
    assert AckedAt(a, a.highestAcked) == AckedAt(b, a.highestAcked);
  }
}
