/**
 * The session invariant behind read safety. It is stated for runs in which a round
 * declares something Empty only when it reaches every member: the model has no
 * resync that would reconcile a member left out of such a round.
 */
module Safety {
  import opened CraftTypes
  import opened Replica
  import opened Tracker
  import opened Router
  import opened Cluster
  import opened Protocol
  import opened Exclusion
  import opened ExclusionSteps
  import opened ExclusionRound
  import opened Runs

  /** A dLSN no live member has an entry for: the round is about to declare it Empty. */
  predicate Unseen(s: State, live: set<nat>, upto: Lsn, d: Lsn) {
    Scanned(s, live, upto, d) && !AnyEmpty(s.reps, live, d) && !AnyHolder(s.reps, live, d)
  }

  /** A round that declares something Empty reaches every member. */
  ghost predicate FullRound(s: State, live: set<nat>, upto: Lsn) {
    (exists d :: Unseen(s, live, upto, d)) ==> live == Members(|s.reps|)
  }

  ghost predicate SafeStep(s: State, step: Step) {
    step.Round? ==> FullRound(s, step.live, step.upto)
  }

  ghost predicate SafeRun(s: State, steps: seq<Step>, s': State)
    decreases |steps|
  {
    if steps == [] then s' == s
    else Wf(s) && Enabled(s, steps[0]) && SafeStep(s, steps[0]) && SafeRun(Next(s, steps[0]), steps[1..], s')
  }

  // ---------------------------------------------------------------- the invariant

  /** Who really holds which session write. */
  ghost function Held(s: State): (h: Holdings)
    ensures forall d: Lsn, i: nat :: (d, i) in h <==> i < |s.reps| && s.trk.base < d && HoldsAt(s.reps[i], d)
  {
    set i, d | i in Members(|s.reps|) && d in s.reps[i].journal && s.trk.base < d && HoldsAt(s.reps[i], d) :: (d, i)
  }

  ghost predicate RepsOk(s: State) {
    forall i :: 0 <= i < |s.reps| ==> RepInv(s.reps[i])
  }

  /** At or below the login dLSN every entry is the agreed one, and the anchor has them all. */
  ghost predicate BaseOk(s: State) {
    && s.anchor < |s.reps|
    && (forall d :: 0 <= d <= s.trk.base ==> d in s.reps[s.anchor].journal)
    && (forall i, d :: 0 <= i < |s.reps| && d in s.reps[i].journal ==> EntryOk(s, i, d))
  }

  ghost predicate EntryOk(s: State, i: int, d: Lsn)
    requires 0 <= i < |s.reps| && d in s.reps[i].journal
  {
    0 <= d && (d <= s.trk.base ==> d in s.base && s.reps[i].journal[d] == s.base[d])
  }

  ghost predicate FoundersFull(s: State) {
    forall d :: d in s.founders ==> s.founders[d] == Members(|s.reps|)
  }

  /** The router has counted exactly the legs the client heard of. */
  ghost predicate Counted(s: State, d: Lsn)
    requires d in s.route.overlay
  {
    var o := s.route.overlay[d];
    && (forall i :: i in o.completed <==> 0 <= i < |s.reps| && IsLeg(s, d, i) && s.legs[d][i].report != Waiting)
    && (forall i :: 0 <= i < |s.reps| && LegReported(s, d, i, LegAcked) ==> i in o.holders)
    && (o.verdict ==> o.holders != {})
  }

  ghost predicate LegsCounted(s: State) {
    forall d :: d in s.route.overlay ==> Counted(s, d)
  }

  /** What the tracker calls acked, the router calls durable. */
  ghost predicate AckedDurable(s: State) {
    forall d :: AckedAt(s.trk, d) ==> d in s.route.overlay && Durable(s.route, s.route.overlay[d])
  }

  /** No fold, published or under way, aims above the frontier. */
  predicate FoldsBehind(r: Route, f: Lsn) {
    r.folded <= f && (r.flight.Some? ==> r.flight.value.target <= f) && forall t :: t in r.ready ==> t <= f
  }

  ghost predicate MarksOk(s: State) {
    && FoldsBehind(s.route, s.trk.frontier)
    && |s.route.synced| == |s.reps|
    && (forall i :: 0 <= i < |s.reps| ==> s.route.synced[i] <= s.reps[i].commit)
  }

  /** What the replicas hold. */
  ghost predicate Stores(s: State) {
    RepsOk(s) && BaseOk(s) && FoundersFull(s)
  }

  /** What the client has written down about them. */
  ghost predicate Books(s: State) {
    LegsCounted(s) && AckedDurable(s) && MarksOk(s)
  }

  ghost predicate SafeInv(s: State) {
    ExclInv(s) && FloorOk(s.route) && Stores(s) && Books(s) && RouteInv(s.route, Held(s))
  }

  // ---------------------------------------------------------------- consequences

  /** A tombstone is on every member or on none. */
  lemma EmptyEverywhere(s: State, d: Lsn, i: nat)
    requires EmptyOk(s) && FoundersOk(s) && FoundersFull(s) && s.trk.base < d
    requires (exists k :: 0 <= k < |s.reps| && IsEmptyAt(s.reps[k], d)) || d in s.founders
    requires i < |s.reps|
    ensures IsEmptyAt(s.reps[i], d)
    ensures IsLeg(s, d, i) ==> s.legs[d][i].arrived != Accepted
  {
    assert FounderOk(s, d);
    assert FoundedBy(s, d, i);
  }

  lemma AcceptedHolds(s: State, d: Lsn, i: nat)
    requires LegsOk(s) && EmptyOk(s) && FoundersOk(s) && FoundersFull(s)
    requires IsLeg(s, d, i) && i < |s.reps| && s.legs[d][i].arrived == Accepted
    ensures HoldsAt(s.reps[i], d)
  {
    assert LegOk(s, d, i);
    if d in s.founders {
      assert FounderOk(s, d);
      EmptyEverywhere(s, d, i);
    }
  }

  /** Nobody holds a Void slot. */
  lemma VoidHeldByNone(s: State, d: Lsn, i: nat)
    requires ExclInv(s) && FoundersFull(s) && VoidAt(s.trk, d) && i < |s.reps|
    ensures !HoldsAt(s.reps[i], d)
  {
    assert s.trk.base < d;
    if d in s.founders {
      assert FounderOk(s, d);
      EmptyEverywhere(s, d, i);
    } else {
      RejectedHeldByNone(s, d);
      assert i !in HoldersOf(s.reps, d);
    }
  }

  /** A member with any entry for an acked slot holds its data. */
  lemma AckedEntryHeld(s: State, d: Lsn, i: nat)
    requires EmptyOk(s) && AckedOk(s) && AckedAt(s.trk, d) && s.trk.base < d
    requires i < |s.reps| && d in s.reps[i].journal
    ensures HoldsAt(s.reps[i], d)
  {
    assert !IsEmptyAt(s.reps[i], d);
  }

  /** Below the frontier, durable to the router means acked. */
  lemma DurableIsAcked(s: State, d: Lsn)
    requires SafeInv(s) && d in s.route.overlay && d <= s.trk.frontier && Durable(s.route, s.route.overlay[d])
    ensures AckedAt(s.trk, d)
  {
    FrontierResolved(s.trk, d);
    assert Counted(s, d);
    var i :| i in s.route.overlay[d].holders;
    assert (d, i) in Held(s);
    if VoidAt(s.trk, d) { VoidHeldByNone(s, d, i); }
  }
}
