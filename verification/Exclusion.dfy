/**
 * Acked and Empty exclude each other over whole runs, whatever live majority each
 * resolution round happened to reach.
 */
module Exclusion {
  import opened CraftTypes
  import opened Replica
  import opened Tracker
  import opened Cluster
  import opened Protocol

  // ---------------------------------------------------------------- the invariant

  ghost predicate WriteOk(s: State, d: Lsn)
    requires d in s.writes && d in s.trk.slots && s.pageSize > 0
  {
    var w := s.writes[d];
    && w.addr == s.trk.slots[d].addr && w.len == s.trk.slots[d].len
    && Aligned(s.pageSize, w.addr, w.len)
    && (w.data.Some? ==> |w.data.value| == w.len)
  }

  /** The client's two structures and the replicas talk about the same session and the same writes. */
  ghost predicate Linked(s: State) {
    && Wf(s) && TrkInv(s.trk)
    && s.trk.base == s.route.login
    && (forall i :: 0 <= i < |s.reps| ==> s.reps[i].term == s.term)
    && (forall i :: 0 <= i < |s.reps| ==> PrefixPresent(s.reps[i]))
    && (forall d :: d in s.writes ==> WriteOk(s, d))
    && (forall d :: d in s.route.overlay ==>
          s.route.overlay[d].addr == s.trk.slots[d].addr && s.route.overlay[d].len == s.trk.slots[d].len)
  }

  /** `slot` is what the payload of `d` becomes in a journal. */
  ghost predicate IsPayload(s: State, d: Lsn, slot: Slot) {
    && d in s.writes && s.pageSize > 0
    && (s.writes[d].data.Some? ==> |s.writes[d].data.value| == s.writes[d].len)
    && slot == SlotOf(s.pageSize, s.writes[d].addr, s.writes[d].len, s.writes[d].data)
  }

  ghost predicate ReportOk(l: Leg) {
    && (l.report == LegAcked ==> l.arrived == Accepted)
    && (l.report == LegRejected ==> l.arrived in {Refused, Dropped})
  }

  ghost predicate LegOk(s: State, d: Lsn, i: int)
    requires IsLeg(s, d, i)
  {
    && 0 <= i < |s.reps| && ReportOk(s.legs[d][i])
    && (s.legs[d][i].arrived == Accepted ==> HoldsAt(s.reps[i], d) || d in s.founders)
  }

  ghost predicate LegsOk(s: State) {
    forall d, i :: IsLeg(s, d, i) ==> LegOk(s, d, i)
  }

  ghost predicate AnyAccepted(s: State, d: Lsn) {
    exists j :: IsLeg(s, d, j) && s.legs[d][j].arrived == Accepted
  }

  ghost predicate DatumOk(s: State, i: int, d: Lsn)
    requires 0 <= i < |s.reps| && HoldsAt(s.reps[i], d)
  {
    && d in s.legs && IsPayload(s, d, s.reps[i].journal[d]) && AnyAccepted(s, d)
    && (d <= s.reps[i].commit ==> ResolvedAt(s.trk, d))
  }

  /**
   * Data above the login dLSN is the one payload of its dLSN, some leg delivered it, and it is
   * applied only once resolved.
   */
  ghost predicate DataOk(s: State) {
    forall i, d :: 0 <= i < |s.reps| && s.trk.base < d && HoldsAt(s.reps[i], d) ==> DatumOk(s, i, d)
  }

  /** Every tombstone goes back to a round that declared the dLSN Empty. */
  ghost predicate EmptyOk(s: State) {
    forall i, d :: 0 <= i < |s.reps| && s.trk.base < d && IsEmptyAt(s.reps[i], d) ==> d in s.founders
  }

  /** The members that declared `d` Empty are a majority, keep the tombstone and never accepted the write. */
  ghost predicate FounderOk(s: State, d: Lsn)
    requires d in s.founders
  {
    && s.trk.base < d && LiveQuorum(s.reps, s.founders[d])
    && forall i :: i in s.founders[d] ==> FoundedBy(s, d, i)
  }

  ghost predicate FoundedBy(s: State, d: Lsn, i: nat) {
    && i < |s.reps| && IsEmptyAt(s.reps[i], d)
    && (IsLeg(s, d, i) ==> s.legs[d][i].arrived != Accepted)
  }

  ghost predicate FoundersOk(s: State) {
    forall d :: d in s.founders ==> FounderOk(s, d)
  }

  function HoldersOf(reps: seq<Rep>, d: Lsn): (h: set<nat>)
    ensures forall i :: i in h <==> 0 <= i < |reps| && HoldsAt(reps[i], d)
    ensures h <= Members(|reps|)
  {
    set i | i in Members(|reps|) && HoldsAt(reps[i], d)
  }

  /** An acked slot is on a majority and was never declared Empty. */
  ghost predicate AckedOk(s: State) {
    forall d :: AckedAt(s.trk, d) ==> d !in s.founders && |HoldersOf(s.reps, d)| >= Quorum(|s.reps|)
  }

  predicate VoidAt(t: Trk, d: Lsn) {
    d in t.slots && t.slots[d].outcome.Void?
  }

  ghost predicate VoidOk(s: State) {
    forall d :: VoidAt(s.trk, d) ==> d in s.founders || AllRejected(s, d)
  }

  ghost predicate ExclInv(s: State) {
    Linked(s) && LegsOk(s) && DataOk(s) && EmptyOk(s) && FoundersOk(s) && AckedOk(s) && VoidOk(s)
  }

  // ---------------------------------------------------------------- consequences

  lemma RejectedByAll(s: State, d: Lsn)
    requires AllRejected(s, d)
    ensures forall i :: 0 <= i < |s.reps| ==> LegReported(s, d, i, LegRejected)
  {
    var m := Members(|s.reps|);
    assert Refusals(s, d) <= m;
    if exists i :: 0 <= i < |s.reps| && i !in Refusals(s, d) {
      var i :| 0 <= i < |s.reps| && i !in Refusals(s, d);
      SubsetSize(Refusals(s, d), m - {i});
    }
  }

  /** A quorum of acks and an Empty verdict would share a member that can have given only one of them. */
  lemma QuorumAckedNotEmpty(s: State, d: Lsn)
    requires ExclInv(s) && QuorumAcked(s, d)
    ensures d !in s.founders
    ensures Acks(s, d) <= HoldersOf(s.reps, d) && |HoldersOf(s.reps, d)| >= Quorum(|s.reps|)
  {
    forall i | i in Acks(s, d) ensures s.legs[d][i].arrived == Accepted { assert LegOk(s, d, i); }
    if d in s.founders {
      assert FounderOk(s, d);
      var _ := QuorumsIntersect(|s.reps|, Acks(s, d), s.founders[d]);
      assert false;
    }
    forall i | i in Acks(s, d) ensures i in HoldersOf(s.reps, d) { assert LegOk(s, d, i); }
    SubsetSize(Acks(s, d), HoldersOf(s.reps, d));
  }

  /** When every member rejected the write, no leg was accepted and nobody holds it. */
  lemma RejectedHeldByNone(s: State, d: Lsn)
    requires ExclInv(s) && AllRejected(s, d)
    ensures !AnyAccepted(s, d)
    ensures s.trk.base < d ==> HoldersOf(s.reps, d) == {}
  {
    RejectedByAll(s, d);
    forall j | IsLeg(s, d, j) ensures s.legs[d][j].arrived != Accepted {
      assert LegReported(s, d, j, LegRejected) && LegOk(s, d, j);
    }
    if s.trk.base < d {
      forall i | 0 <= i < |s.reps| ensures !HoldsAt(s.reps[i], d) {
        assert HoldsAt(s.reps[i], d) ==> DatumOk(s, i, d);
      }
    }
  }

  /** Acked by the tracker or by a quorum of legs. */
  predicate EverAcked(s: State, d: Lsn) {
    AckedAt(s.trk, d) || QuorumAcked(s, d)
  }

  /** Declared Empty by a round, by the tracker, or because every member rejected the write. */
  predicate EverEmpty(s: State, d: Lsn) {
    d in s.founders || VoidAt(s.trk, d) || AllRejected(s, d)
  }

  lemma AckedXorEmpty(s: State, d: Lsn)
    requires ExclInv(s)
    ensures !(EverAcked(s, d) && EverEmpty(s, d))
  {
    if EverAcked(s, d) {
      if QuorumAcked(s, d) { QuorumAckedNotEmpty(s, d); }
      assert d !in s.founders && |HoldersOf(s.reps, d)| >= Quorum(|s.reps|);
      if AllRejected(s, d) { RejectedHeldByNone(s, d); }
    }
  }
}
