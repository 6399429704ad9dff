/** Every step keeps the session invariant, rounds included when they reach every member they must. */
module SafetySteps {
  import opened CraftTypes
  import opened Replica
  import opened Tracker
  import opened Router
  import opened Protocol
  import opened Exclusion
  import opened ExclusionSteps
  import opened Runs
  import opened Safety

  // ---------------------------------------------------------------- steps on the client only

  ghost predicate SameReplicas(s: State, s': State) {
    && s'.reps == s.reps && s'.founders == s.founders && s'.base == s.base && s'.anchor == s.anchor
    && s'.trk.base == s.trk.base
  }

  lemma SameReplicasKeep(s: State, s': State)
    requires Stores(s) && SameReplicas(s, s')
    ensures Stores(s') && Held(s') == Held(s)
  {
    forall i, d | 0 <= i < |s'.reps| && d in s'.reps[i].journal ensures EntryOk(s', i, d) { assert EntryOk(s, i, d); }
  }

  /** Legs keep their reports and the overlay keeps its slots. */
  lemma CountedSame(s: State, s': State)
    requires LegsCounted(s) && |s'.reps| == |s.reps| && s'.route.overlay == s.route.overlay
    requires forall d :: d in s.route.overlay ==> d in s.legs && d in s'.legs && |s'.legs[d]| == |s.legs[d]|
    requires forall d, i :: d in s.route.overlay && IsLeg(s, d, i) ==> s'.legs[d][i].report == s.legs[d][i].report
    ensures LegsCounted(s')
  {
    forall d | d in s'.route.overlay ensures Counted(s', d) {
      assert Counted(s, d);
      assert forall i :: IsLeg(s', d, i) <==> IsLeg(s, d, i);
    }
  }

  lemma AckedDurableSame(s: State, s': State)
    requires AckedDurable(s) && s'.route.n == s.route.n
    requires forall d :: AckedAt(s'.trk, d) ==> AckedAt(s.trk, d)
    requires forall d :: d in s.route.overlay ==> d in s'.route.overlay
    requires forall d :: d in s.route.overlay ==>
      s.route.overlay[d].holders <= s'.route.overlay[d].holders
      && (s.route.overlay[d].verdict ==> s'.route.overlay[d].verdict)
    ensures AckedDurable(s')
  {
    forall d | AckedAt(s'.trk, d) ensures d in s'.route.overlay && Durable(s'.route, s'.route.overlay[d]) {
      SubsetSize(s.route.overlay[d].holders, s'.route.overlay[d].holders);
    }
  }

  predicate OnClient(step: Step) {
    !step.Deliver? && !step.Ping? && !step.Round?
  }

  lemma ClientKeepsStores(s: State, step: Step)
    requires Linked(s) && Stores(s) && Enabled(s, step) && OnClient(step)
    ensures Stores(Next(s, step)) && Held(Next(s, step)) == Held(s)
  {
    TrackerStepLater(s, step);
    SameReplicasKeep(s, Next(s, step));
  }

  lemma SendCounts(s: State, d: Lsn)
    requires LegsCounted(s) && Wf(s) && Enabled(s, Send(d))
    ensures LegsCounted(NextSend(s, d))
  {
    var s' := NextSend(s, d);
    forall e | e in s'.route.overlay ensures Counted(s', e) {
      if e != d {
        assert Counted(s, e);
        assert forall i :: IsLeg(s', e, i) <==> IsLeg(s, e, i);
      }
    }
  }

  lemma CompleteCounts(s: State, d: Lsn, i: nat, report: Report)
    requires LegsCounted(s) && Wf(s) && Enabled(s, Complete(d, i, report))
    ensures LegsCounted(NextComplete(s, d, i, report))
  {
    var s' := NextComplete(s, d, i, report);
    var acked := report == LegAcked;
    assert s'.route.overlay == s.route.overlay[d := CompletedSlot(s.route.overlay[d], i, acked)];
    forall e | e in s'.route.overlay ensures Counted(s', e) {
      assert Counted(s, e);
      if e == d {
        CompletedCounted(s, s', d, i, report);
      } else {
        assert forall k :: IsLeg(s', e, k) <==> IsLeg(s, e, k);
      }
    }
  }

  lemma CompletedCounted(s: State, s': State, d: Lsn, i: nat, report: Report)
    requires d in s.route.overlay && Counted(s, d) && IsLeg(s, d, i) && i < |s.reps| && report != Waiting
    requires d in s'.route.overlay && s'.reps == s.reps
    requires s'.route.overlay[d] == CompletedSlot(s.route.overlay[d], i, report == LegAcked)
    requires s'.legs == s.legs[d := s.legs[d][i := s.legs[d][i].(report := report)]]
    ensures Counted(s', d)
  {
    assert forall k :: IsLeg(s', d, k) <==> IsLeg(s, d, k);
  }

  lemma ClientKeepsCounts(s: State, step: Step)
    requires Wf(s) && LegsCounted(s) && Enabled(s, step) && OnClient(step)
    ensures LegsCounted(Next(s, step))
  {
    if step.Send? {
      SendCounts(s, step.d);
    } else if step.Complete? {
      CompleteCounts(s, step.d, step.i, step.report);
    } else {
      CountedSame(s, Next(s, step));
    }
  }

  lemma ConcludeDurable(s: State, d: Lsn)
    requires Linked(s) && LegsCounted(s) && AckedDurable(s) && Enabled(s, Conclude(d))
    ensures AckedDurable(Next(s, Conclude(d)))
  {
    var s' := Next(s, Conclude(d));
    ResolveExact(s.trk, d, Classify(s, d));
    forall e | AckedAt(s'.trk, e) ensures e in s'.route.overlay && Durable(s'.route, s'.route.overlay[e]) {
      if !AckedAt(s.trk, e) {
        assert e == d && QuorumAcked(s, d) && Counted(s, d);
        SubsetSize(Acks(s, d), s.route.overlay[d].holders);
      }
    }
  }

  lemma CompleteDurable(s: State, d: Lsn, i: nat, report: Report)
    requires Wf(s) && AckedDurable(s) && Enabled(s, Complete(d, i, report))
    ensures AckedDurable(NextComplete(s, d, i, report))
  {
    var s' := NextComplete(s, d, i, report);
    assert s'.route.overlay == s.route.overlay[d := CompletedSlot(s.route.overlay[d], i, report == LegAcked)];
    AckedDurableSame(s, s');
  }

  lemma SendDurable(s: State, d: Lsn)
    requires AckedDurable(s) && d in s.trk.slots && d !in s.route.overlay
    ensures AckedDurable(NextSend(s, d))
  {
    AckedDurableSame(s, NextSend(s, d));
  }

  lemma ClientKeepsDurable(s: State, step: Step)
    requires Linked(s) && LegsCounted(s) && AckedDurable(s) && Enabled(s, step) && OnClient(step)
    ensures AckedDurable(Next(s, step))
  {
    if step.Conclude? {
      ConcludeDurable(s, step.d);
    } else if step.Complete? {
      CompleteDurable(s, step.d, step.i, step.report);
    } else if step.Send? {
      SendDurable(s, step.d);
    } else {
      AckedDurableSame(s, Next(s, step));
    }
  }

  lemma ClientKeepsMarks(s: State, step: Step)
    requires Linked(s) && MarksOk(s) && Enabled(s, step) && OnClient(step)
    ensures MarksOk(Next(s, step))
  {
    TrackerStepLater(s, step);
    match step
    case Complete(d, i, report) => CompletionKeys(s.route, d, i, report == LegAcked);
    case Fold(m) => FoldMoveBehind(s.route, m, s.trk.frontier);
    case _ =>
  }

  lemma FoldMoveBehind(r: Route, m: FoldMove, f: Lsn)
    requires FoldsBehind(r, f) && CanFold(r, m) && AimsAtMost(m, f)
    ensures FoldsBehind(FoldNext(r, m), f) && FoldNext(r, m).synced == r.synced
  {
    hide ApplyBatch, Select, CanTake, CanChoose, LowestDlsn;
  }

  /** A committed prefix certifies every durable write below it. */
  lemma CommitCertifies(s: State, i: nat, c: Lsn, d: Lsn)
    requires SafeInv(s) && i < |s.reps| && c <= s.reps[i].commit
    requires d <= c && d <= s.route.folded && d in s.route.overlay && Durable(s.route, s.route.overlay[d])
    ensures (d, i) in Held(s)
  {
    DurableIsAcked(s, d);
    assert PrefixPresent(s.reps[i]) && s.trk.base < d;
    AckedEntryHeld(s, d, i);
  }

  lemma CommitCertifiesAll(s: State, i: nat, c: Lsn)
    requires SafeInv(s) && i < |s.reps| && c <= s.reps[i].commit
    ensures forall d ::
      d <= c && d <= s.route.folded && d in s.route.overlay && Durable(s.route, s.route.overlay[d]) ==>
        (d, i) in Held(s)
  {
    forall d | d <= c && d <= s.route.folded && d in s.route.overlay && Durable(s.route, s.route.overlay[d])
      ensures (d, i) in Held(s)
    {
      CommitCertifies(s, i, c, d);
    }
  }

  lemma CompleteKeepsRoute(s: State, d: Lsn, i: nat, report: Report)
    requires SafeInv(s) && Enabled(s, Complete(d, i, report))
    ensures RouteInv(RecordCompletion(s.route, d, i, report == LegAcked), Held(s))
  {
    assert Counted(s, d);
    if report == LegAcked { AcceptedHolds(s, d, i); }
    CompletionAgrees(s.route, Held(s), d, i, report == LegAcked);
  }

  lemma HeardKeepsRoute(s: State, i: nat, c: Lsn)
    requires SafeInv(s) && Enabled(s, Heard(i, c))
    ensures RouteInv(AdvanceSynced(s.route, i, c), Held(s))
  {
    CommitCertifiesAll(s, i, c);
    SyncedAgrees(s.route, Held(s), i, c);
  }

  lemma ClientKeepsRoute(s: State, step: Step)
    requires SafeInv(s) && Enabled(s, step) && OnClient(step)
    ensures RouteInv(Next(s, step).route, Held(s))
  {
    match step
    case Send(d) => OpenSlotAgrees(s.route, Held(s), d, s.trk.slots[d].addr, s.trk.slots[d].len);
    case Complete(d, i, report) => CompleteKeepsRoute(s, d, i, report);
    case Fold(m) => FoldMoveAgrees(s.route, Held(s), m);
    case Heard(i, c) => HeardKeepsRoute(s, i, c);
    case _ =>
  }

  lemma ClientKeepsSafe(s: State, step: Step)
    requires SafeInv(s) && Enabled(s, step) && OnClient(step)
    ensures Stores(Next(s, step)) && Books(Next(s, step)) && RouteInv(Next(s, step).route, Held(Next(s, step)))
  {
    ClientKeepsStores(s, step);
    ClientKeepsCounts(s, step);
    ClientKeepsDurable(s, step);
    ClientKeepsMarks(s, step);
    ClientKeepsRoute(s, step);
  }

  // ---------------------------------------------------------------- one replica

  /** One replica keeps its invariant and its entries, possibly gaining session data. */
  ghost predicate OneReplica(s: State, s': State, i: nat) {
    && i < |s.reps| && |s'.reps| == |s.reps| && s'.reps == s.reps[i := s'.reps[i]]
    && s'.founders == s.founders && s'.base == s.base && s'.anchor == s.anchor && s'.trk == s.trk
    && RepInv(s'.reps[i]) && s.reps[i].commit <= s'.reps[i].commit
    && (forall d :: d in s.reps[i].journal ==> d in s'.reps[i].journal && s'.reps[i].journal[d] == s.reps[i].journal[d])
    && (forall d :: d in s'.reps[i].journal && d !in s.reps[i].journal ==> s.trk.base < d)
  }

  lemma OneReplicaKeepsStores(s: State, s': State, i: nat)
    requires Stores(s) && OneReplica(s, s', i) && -1 <= s.trk.base
    ensures Stores(s') && Held(s) <= Held(s')
  {
    forall k, d | 0 <= k < |s'.reps| && d in s'.reps[k].journal ensures EntryOk(s', k, d) {
      assert d in s.reps[k].journal ==> EntryOk(s, k, d);
    }
  }

  lemma OneReplicaKeepsSafe(s: State, s': State, i: nat)
    requires SafeInv(s) && OneReplica(s, s', i) && s'.route == s.route
    requires forall d :: d in s.legs ==> d in s'.legs && |s'.legs[d]| == |s.legs[d]|
    requires forall d, k :: IsLeg(s, d, k) ==> s'.legs[d][k].report == s.legs[d][k].report
    ensures Stores(s') && Books(s') && RouteInv(s'.route, Held(s'))
  {
    OneReplicaKeepsStores(s, s', i);
    CountedSame(s, s');
    AckedDurableSame(s, s');
    MoreHoldings(s.route, Held(s), Held(s'));
  }

  /** What a delivery finds: the write, and at the replica nothing or its own payload. */
  lemma LegFacts(s: State, d: Lsn, i: nat)
    requires SafeInv(s) && IsLeg(s, d, i)
    ensures Wf(s) && Linked(s) && i < |s.reps| && RepInv(s.reps[i]) && s.reps[i].pageSize == s.pageSize
    ensures d in s.writes && s.trk.base < d && s.reps[i].term == s.term
    ensures var w := s.writes[d]; Aligned(s.pageSize, w.addr, w.len) && (w.data.Some? ==> |w.data.value| == w.len)
    ensures 0 <= d <= s.reps[i].commit ==> d in s.reps[i].journal
    ensures var w := s.writes[d]; d in s.reps[i].journal && !IsEmptyAt(s.reps[i], d) ==>
      s.reps[i].journal[d] == SlotOf(s.pageSize, w.addr, w.len, w.data)
  {
    assert WriteOk(s, d) && LegOk(s, d, i);
    if d in s.reps[i].journal && !IsEmptyAt(s.reps[i], d) { assert DatumOk(s, i, d); }
  }

  lemma DeliverIsOne(s: State, d: Lsn, i: nat, c: Lsn)
    requires SafeInv(s) && Enabled(s, Deliver(d, i, c))
    ensures OneReplica(s, Next(s, Deliver(d, i, c)), i)
  {
    hide NextRound, NextComplete, NextSend, Resolve, Classify, FoldNext, AdvanceSynced, SafeInv, DoWrite, DoKeepAlive;
    hide RepInv, Linked, Wf, JournalOk, PrefixPresent, SlotOf;
    LegFacts(s, d, i);
    var w := s.writes[d];
    DeliverEffect(s, d, i, c);
    WriteKeepsInv(s.reps[i], Hdr(s.term, c), d, w.addr, w.len, w.data);
  }

  lemma DeliverKeepsSafe(s: State, d: Lsn, i: nat, c: Lsn)
    requires SafeInv(s) && Enabled(s, Deliver(d, i, c))
    ensures var s' := Next(s, Deliver(d, i, c)); Stores(s') && Books(s') && RouteInv(s'.route, Held(s'))
  {
    hide SafeInv, Stores, Books, RouteInv, DoWrite, OneReplica, NextRound, NextComplete, Resolve, FoldNext;
    LegFacts(s, d, i);
    DeliverIsOne(s, d, i, c);
    OneReplicaKeepsSafe(s, Next(s, Deliver(d, i, c)), i);
  }

  lemma PingKeepsSafe(s: State, i: nat, c: Lsn)
    requires SafeInv(s) && Enabled(s, Ping(i, c))
    ensures var s' := Next(s, Ping(i, c)); Stores(s') && Books(s') && RouteInv(s'.route, Held(s'))
  {
    ApplyKeepsInv(s.reps[i], c);
    OneReplicaKeepsSafe(s, Next(s, Ping(i, c)), i);
  }
}
