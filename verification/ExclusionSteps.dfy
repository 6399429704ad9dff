/** Every step of the session machine keeps the exclusion invariant. */
module ExclusionSteps {
  import opened CraftTypes
  import opened Replica
  import opened Tracker
  import opened Router
  import opened Protocol
  import opened Exclusion

  // ---------------------------------------------------------------- steps that move no data

  ghost predicate SameJournals(a: seq<Rep>, b: seq<Rep>) {
    |a| == |b| && forall i :: 0 <= i < |a| ==> a[i].journal == b[i].journal
  }

  /** A leg may go on to another report, but is neither accepted nor un-rejected. */
  ghost predicate LegStep(l: Leg, l': Leg) {
    && ReportOk(l') && (l'.arrived == Accepted) == (l.arrived == Accepted)
    && (l.report == LegRejected ==> l'.report == LegRejected)
  }

  ghost predicate LegsStep(ls: seq<Leg>, ls': seq<Leg>) {
    |ls'| == |ls| && forall i :: 0 <= i < |ls| ==> LegStep(ls[i], ls'[i])
  }

  ghost predicate LegsNew(ls: seq<Leg>) {
    forall i :: 0 <= i < |ls| ==> ls[i] == Leg(NotYet, Waiting)
  }

  ghost predicate CalmLegs(s: State, s': State) {
    && (forall d :: d in s.legs ==> d in s'.legs && LegsStep(s.legs[d], s'.legs[d]))
    && (forall d :: d in s'.legs && d !in s.legs ==> |s'.legs[d]| == |s.reps| && LegsNew(s'.legs[d]))
  }

  ghost predicate CalmSlots(s: State, s': State) {
    && s'.trk.base == s.trk.base
    && (forall d :: d in s.trk.slots ==> d in s'.trk.slots && s'.trk.slots[d] == s.trk.slots[d])
    && (forall d :: d in s'.trk.slots && d !in s.trk.slots ==> s'.trk.slots[d].outcome == InFlight)
    && (forall d :: d in s.writes ==> d in s'.writes && s'.writes[d] == s.writes[d])
  }

  ghost predicate CalmReps(s: State, s': State) {
    && SameJournals(s.reps, s'.reps)
    && (forall i, d :: 0 <= i < |s.reps| && s.trk.base < d && s.reps[i].commit < d <= s'.reps[i].commit ==>
          ResolvedAt(s.trk, d))
  }

  /** No journal, verdict or outcome changes; slots and legs may be added, legs may report. */
  ghost predicate Calm(s: State, s': State) {
    && CalmReps(s, s') && CalmSlots(s, s') && CalmLegs(s, s')
    && s'.founders == s.founders && s'.pageSize == s.pageSize
  }

  lemma CalmKeepsLegs(s: State, s': State)
    requires LegsOk(s) && Calm(s, s')
    ensures LegsOk(s')
  {
    forall d, i | IsLeg(s', d, i) ensures LegOk(s', d, i) {
      if d in s.legs {
        assert IsLeg(s, d, i) && LegOk(s, d, i);
        assert LegStep(s.legs[d][i], s'.legs[d][i]);
      }
    }
  }

  lemma CalmKeepsAccepted(s: State, s': State, d: Lsn)
    requires CalmLegs(s, s') && AnyAccepted(s, d)
    ensures AnyAccepted(s', d)
  {
    var j :| IsLeg(s, d, j) && s.legs[d][j].arrived == Accepted;
    assert LegStep(s.legs[d][j], s'.legs[d][j]);
    assert IsLeg(s', d, j);
  }

  lemma CalmKeepsData(s: State, s': State)
    requires DataOk(s) && Calm(s, s')
    ensures DataOk(s')
  {
    forall i, d | 0 <= i < |s'.reps| && s'.trk.base < d && HoldsAt(s'.reps[i], d) ensures DatumOk(s', i, d) {
      assert HoldsAt(s.reps[i], d) && DatumOk(s, i, d);
      CalmKeepsAccepted(s, s', d);
      assert ResolvedAt(s.trk, d) ==> ResolvedAt(s'.trk, d);
    }
  }

  lemma CalmKeepsVerdicts(s: State, s': State)
    requires EmptyOk(s) && FoundersOk(s) && Calm(s, s')
    ensures EmptyOk(s') && FoundersOk(s')
  {
    forall i, d | 0 <= i < |s'.reps| && s'.trk.base < d && IsEmptyAt(s'.reps[i], d) ensures d in s'.founders {
      assert IsEmptyAt(s.reps[i], d);
    }
    forall d | d in s'.founders ensures FounderOk(s', d) {
      assert FounderOk(s, d);
      forall i | i in s'.founders[d] ensures FoundedBy(s', d, i) {
        assert FoundedBy(s, d, i);
        if IsLeg(s, d, i) { assert LegStep(s.legs[d][i], s'.legs[d][i]); }
      }
    }
  }

  lemma SameHolders(a: seq<Rep>, b: seq<Rep>, d: Lsn)
    requires SameJournals(a, b)
    ensures HoldersOf(b, d) == HoldersOf(a, d)
  {
    assert forall i :: 0 <= i < |a| ==> HoldsAt(a[i], d) == HoldsAt(b[i], d);
  }

  lemma RejectionStays(s: State, s': State, d: Lsn)
    requires |s'.reps| == |s.reps| > 0 && CalmLegs(s, s') && AllRejected(s, d)
    ensures AllRejected(s', d)
  {
    RejectedByAll(s, d);
    forall i | 0 <= i < |s.reps| ensures LegReported(s', d, i, LegRejected) {
      assert LegReported(s, d, i, LegRejected);
      assert LegStep(s.legs[d][i], s'.legs[d][i]);
    }
    assert Refusals(s', d) == Members(|s.reps|);
  }

  lemma CalmKeepsOutcomes(s: State, s': State)
    requires AckedOk(s) && VoidOk(s) && Calm(s, s') && |s.reps| > 0
    ensures AckedOk(s') && VoidOk(s')
  {
    forall d | AckedAt(s'.trk, d) ensures d !in s'.founders && |HoldersOf(s'.reps, d)| >= Quorum(|s'.reps|) {
      assert AckedAt(s.trk, d);
      SameHolders(s.reps, s'.reps, d);
    }
    forall d | VoidAt(s'.trk, d) ensures d in s'.founders || AllRejected(s', d) {
      assert VoidAt(s.trk, d);
      if AllRejected(s, d) { RejectionStays(s, s', d); }
    }
  }

  lemma CalmKeepsExcl(s: State, s': State)
    requires ExclInv(s) && Linked(s') && Calm(s, s')
    ensures ExclInv(s')
  {
    CalmKeepsLegs(s, s');
    CalmKeepsData(s, s');
    CalmKeepsVerdicts(s, s');
    CalmKeepsOutcomes(s, s');
  }

  // ---------------------------------------------------------------- the calm steps

  lemma FrontierResolved(t: Trk, d: Lsn)
    requires TrkInv(t) && t.base < d <= t.frontier
    ensures ResolvedAt(t, d)
  {
    assert d in t.done;
  }

  lemma SelfStep(s: State)
    requires LegsOk(s)
    ensures CalmLegs(s, s)
  {
    forall d | d in s.legs ensures LegsStep(s.legs[d], s.legs[d]) {
      forall i | 0 <= i < |s.legs[d]| ensures LegStep(s.legs[d][i], s.legs[d][i]) {
        assert IsLeg(s, d, i) && LegOk(s, d, i);
      }
    }
  }

  lemma CountIsCalm(s: State)
    requires Linked(s) && LegsOk(s)
    ensures var s' := Next(s, Count); Linked(s') && Calm(s, s')
  {
    BumpExact(s.trk);
    SelfStep(s);
  }

  lemma PublishIsCalm(s: State, d: Lsn, w: Write)
    requires Linked(s) && LegsOk(s) && Enabled(s, Publish(d, w))
    ensures var s' := Next(s, Publish(d, w)); Linked(s') && Calm(s, s')
  {
    hide NextRound, NextDeliver, NextComplete, NextSend, Resolve, Classify, FoldNext, AdvanceSynced, DoKeepAlive;
    hide JournalOk, PrefixPresent, Aligned;
    CreateExact(s.trk, d, w.addr, w.len);
    SelfStep(s);
    var s' := Next(s, Publish(d, w));
    forall e | e in s'.writes ensures WriteOk(s', e) { assert e != d ==> WriteOk(s, e); }
  }

  lemma SendIsCalm(s: State, d: Lsn)
    requires Linked(s) && LegsOk(s) && Enabled(s, Send(d))
    ensures var s' := Next(s, Send(d)); Linked(s') && Calm(s, s')
  {
    hide NextRound, NextDeliver, NextComplete, Resolve, Classify, FoldNext, AdvanceSynced, TrkInv, DoKeepAlive;
    hide JournalOk, PrefixPresent, Aligned;
    SelfStep(s);
    var s' := Next(s, Send(d));
    assert d !in s.legs;
    forall e | e in s'.writes ensures WriteOk(s', e) { assert WriteOk(s, e); }
  }

  lemma LegChangeIsCalm(s: State, d: Lsn, i: nat, l: Leg)
    requires LegsOk(s) && IsLeg(s, d, i) && LegStep(s.legs[d][i], l)
    ensures CalmLegs(s, SetLeg(s, d, i, l))
  {
    SelfStep(s);
    var s' := SetLeg(s, d, i, l);
    assert LegsStep(s.legs[d], s'.legs[d]);
  }

  lemma DropIsCalm(s: State, d: Lsn, i: nat)
    requires Linked(s) && LegsOk(s) && Enabled(s, Drop(d, i))
    ensures var s' := Next(s, Drop(d, i)); Linked(s') && Calm(s, s')
  {
    assert LegOk(s, d, i);
    LegChangeIsCalm(s, d, i, s.legs[d][i].(arrived := Dropped));
    var s' := Next(s, Drop(d, i));
    forall e | e in s'.writes ensures WriteOk(s', e) { assert WriteOk(s, e); }
  }

  lemma CompletionKeys(r: Route, d: Lsn, i: nat, acked: bool)
    requires d in r.overlay
    ensures var r' := RecordCompletion(r, d, i, acked);
      && r'.overlay.Keys == r.overlay.Keys && SameFolds(r, r')
      && r'.synced == r.synced && r'.allCommitted == r.allCommitted
      && forall e :: e in r.overlay ==> SlotGrows(r.overlay[e], r'.overlay[e])
  {
  }

  /** Replacing the router by one with the same slots and ranges keeps the links. */
  lemma RouteKeepsLinks(s: State, s': State, r: Route)
    requires Linked(s) && s' == s.(route := r)
    requires r.overlay.Keys == s.route.overlay.Keys && r.n == s.route.n && r.login == s.route.login
    requires |r.miss| == |s.route.miss| && |r.synced| == |s.route.synced|
    requires forall e :: e in r.overlay ==>
      r.overlay[e].addr == s.route.overlay[e].addr && r.overlay[e].len == s.route.overlay[e].len
    ensures Linked(s')
  {
    forall e | e in s'.writes ensures WriteOk(s', e) { assert WriteOk(s, e); }
  }

  lemma LegChangeLinks(s: State, d: Lsn, i: nat, l: Leg)
    requires Linked(s) && IsLeg(s, d, i)
    ensures Linked(SetLeg(s, d, i, l))
  {
    hide TrkInv, JournalOk, PrefixPresent, Aligned;
    var m := SetLeg(s, d, i, l);
    forall e | e in m.writes ensures WriteOk(m, e) { assert WriteOk(s, e); }
  }

  lemma LinkedLegs(s: State, d: Lsn, i: nat)
    requires Linked(s) && IsLeg(s, d, i)
    ensures Wf(s) && d in s.route.overlay
  {
  }

  /** A leg learns its result once, and only what happened to it. */
  lemma ReportSteps(s: State, d: Lsn, i: nat, report: Report)
    requires LegsOk(s) && Enabled(s, Complete(d, i, report))
    ensures LegStep(s.legs[d][i], s.legs[d][i].(report := report))
  {
    assert LegOk(s, d, i);
  }

  lemma CompleteIsCalm(s: State, d: Lsn, i: nat, report: Report)
    requires Linked(s) && LegsOk(s) && Enabled(s, Complete(d, i, report))
    ensures var s' := Next(s, Complete(d, i, report)); Linked(s') && Calm(s, s')
  {
    hide NextRound, NextDeliver, NextSend, Resolve, Classify, FoldNext, AdvanceSynced, DoKeepAlive, RecordCompletion;
    hide Linked, LegsOk, Wf, LegStep;
    LinkedLegs(s, d, i);
    ReportSteps(s, d, i, report);
    var l := s.legs[d][i].(report := report);
    LegChangeIsCalm(s, d, i, l);
    var m := SetLeg(s, d, i, l);
    LegChangeLinks(s, d, i, l);
    CompletionKeys(s.route, d, i, report == LegAcked);
    RouteKeepsLinks(m, Next(s, Complete(d, i, report)), RecordCompletion(s.route, d, i, report == LegAcked));
  }

  lemma RouterStepIsCalm(s: State, step: Step)
    requires Linked(s) && LegsOk(s) && Enabled(s, step) && (OnRouter(step))
    ensures var s' := Next(s, step); Linked(s') && Calm(s, s')
  {
    hide NextRound, NextDeliver, NextComplete, NextSend, Resolve, Classify, TrkInv, FoldNext, CanFold, DoKeepAlive;
    hide JournalOk, PrefixPresent, LowestSynced, Aligned;
    if step.Fold? { FoldMoveFrame(s.route, step.m); }
    SelfStep(s);
    RouteKeepsLinks(s, Next(s, step), Next(s, step).route);
  }

  /** A keep_alive only moves the committed prefix, over entries that are there. */
  lemma PingEffect(s: State, i: nat, c: Lsn)
    requires Linked(s) && i < |s.reps|
    ensures var r, r' := s.reps[i], DoKeepAlive(s.reps[i], Hdr(s.term, c)).0;
      && r'.journal == r.journal && r'.term == r.term && r'.pageSize == r.pageSize
      && PrefixPresent(r') && r'.commit <= Max(r.commit, c)
  {
  }

  lemma CommitMoveIsCalm(s: State, s': State, i: nat)
    requires Linked(s) && LegsOk(s) && i < |s.reps| && |s'.reps| == |s.reps|
    requires s' == s.(reps := s.reps[i := s'.reps[i]])
    requires s'.reps[i].journal == s.reps[i].journal && s'.reps[i].term == s.term && s'.reps[i].pageSize == s.pageSize
    requires PrefixPresent(s'.reps[i]) && s'.reps[i].commit <= Max(s.reps[i].commit, s.trk.frontier)
    ensures Linked(s') && Calm(s, s')
  {
    SelfStep(s);
    forall e | e in s'.writes ensures WriteOk(s', e) { assert WriteOk(s, e); }
    forall k, d | 0 <= k < |s.reps| && s.trk.base < d && s.reps[k].commit < d <= s'.reps[k].commit
      ensures ResolvedAt(s.trk, d)
    {
      FrontierResolved(s.trk, d);
    }
  }

  lemma PingIsCalm(s: State, i: nat, c: Lsn)
    requires Linked(s) && LegsOk(s) && Enabled(s, Ping(i, c))
    ensures var s' := Next(s, Ping(i, c)); Linked(s') && Calm(s, s')
  {
    hide LegsOk, Calm, DoKeepAlive;
    PingEffect(s, i, c);
    CommitMoveIsCalm(s, Next(s, Ping(i, c)), i);
  }

  // ---------------------------------------------------------------- concluding a write

  /** Only outcomes change: resolved ones stay, and each new outcome is justified. */
  ghost predicate OutcomesStep(s: State, s': State) {
    && s'.trk.base == s.trk.base && s'.trk.slots.Keys == s.trk.slots.Keys
    && (forall d :: d in s.trk.slots && IsResolved(s.trk.slots[d].outcome) ==> s'.trk.slots[d] == s.trk.slots[d])
  }

  lemma TrackerKeepsLinks(s: State, s': State, t: Trk)
    requires Linked(s) && s' == s.(trk := t)
    requires TrkInv(t) && Grows(s.trk, t)
    requires forall d :: d in t.slots ==> t.slots[d].addr == s.trk.slots[d].addr && t.slots[d].len == s.trk.slots[d].len
    ensures Linked(s')
  {
    forall e | e in s'.writes ensures WriteOk(s', e) { assert WriteOk(s, e); }
  }

  lemma OutcomesKeepData(s: State, s': State)
    requires LegsOk(s) && DataOk(s) && EmptyOk(s) && FoundersOk(s) && OutcomesStep(s, s')
    requires s' == s.(trk := s'.trk)
    ensures LegsOk(s') && DataOk(s') && EmptyOk(s') && FoundersOk(s')
  {
    forall d, i | IsLeg(s', d, i) ensures LegOk(s', d, i) { assert IsLeg(s, d, i) && LegOk(s, d, i); }
    forall i, d | 0 <= i < |s'.reps| && s'.trk.base < d && HoldsAt(s'.reps[i], d) ensures DatumOk(s', i, d) {
      assert DatumOk(s, i, d);
      var j :| IsLeg(s, d, j) && s.legs[d][j].arrived == Accepted;
      assert IsLeg(s', d, j);
      assert ResolvedAt(s.trk, d) ==> ResolvedAt(s'.trk, d);
    }
    forall d | d in s'.founders ensures FounderOk(s', d) {
      assert FounderOk(s, d);
      forall i | i in s'.founders[d] ensures FoundedBy(s', d, i) { assert FoundedBy(s, d, i); }
    }
  }

  lemma ConcludeKeepsExcl(s: State, d: Lsn)
    requires ExclInv(s) && Enabled(s, Conclude(d))
    ensures ExclInv(Next(s, Conclude(d)))
  {
    hide Resolve, Classify, AckedOk, VoidOk, LegsOk;
    var s' := Next(s, Conclude(d));
    ResolveExact(s.trk, d, Classify(s, d));
    TrackerKeepsLinks(s, s', s'.trk);
    OutcomesKeepData(s, s');
    ConcludeJustified(s, s', d);
  }

  lemma ConcludeJustified(s: State, s': State, d: Lsn)
    requires ExclInv(s) && s' == s.(trk := s'.trk) && d in s.trk.slots
    requires s'.trk.slots == if ResolvedAt(s.trk, d) then s.trk.slots
                             else s.trk.slots[d := s.trk.slots[d].(outcome := Classify(s, d))]
    ensures AckedOk(s') && VoidOk(s')
  {
    if QuorumAcked(s, d) { QuorumAckedNotEmpty(s, d); }
    forall e | AckedAt(s'.trk, e) ensures e !in s'.founders && |HoldersOf(s'.reps, e)| >= Quorum(|s'.reps|) {
      assert AckedAt(s.trk, e) || (e == d && QuorumAcked(s, d));
    }
    forall e | VoidAt(s'.trk, e) ensures e in s'.founders || AllRejected(s', e) {
      assert VoidAt(s.trk, e) || (e == d && AllRejected(s, d));
      assert Refusals(s', e) == Refusals(s, e);
    }
  }

  // ---------------------------------------------------------------- delivering a leg

  /** A delivered write either leaves the replica alone or appends its slot and applies resolved dLSNs. */
  lemma DeliverEffect(s: State, d: Lsn, i: nat, c: Lsn)
    requires Linked(s) && Enabled(s, Deliver(d, i, c))
    ensures var w := s.writes[d];
      var (r', result) := DoWrite(s.reps[i], Hdr(s.term, c), d, w.addr, w.len, w.data);
      if IsEmptyAt(s.reps[i], d) then r' == s.reps[i] && result == Err(InvalidArgument)
      else
        && result.Ok?
        && r'.journal == s.reps[i].journal[d := SlotOf(s.pageSize, w.addr, w.len, w.data)]
        && s.reps[i].commit <= r'.commit <= Max(s.reps[i].commit, c)
        && PrefixPresent(r') && r'.term == s.term && r'.pageSize == s.pageSize && JournalOk(s.pageSize, r'.journal)
  {
    assert WriteOk(s, d);
  }

  /** One accepted leg: member `i` now holds `d`, and has applied nothing unresolved. */
  ghost predicate AcceptStep(s: State, s': State, d: Lsn, i: nat) {
    && i < |s.reps| && IsLeg(s, d, i) && s'.trk == s.trk && s'.writes == s.writes && s'.founders == s.founders
    && s'.pageSize == s.pageSize
    && !IsEmptyAt(s.reps[i], d) && (HoldsAt(s.reps[i], d) || d !in s.reps[i].journal)
    && |s'.reps| == |s.reps| && s'.reps == s.reps[i := s'.reps[i]]
    && d in s'.reps[i].journal && s'.reps[i].journal == s.reps[i].journal[d := s'.reps[i].journal[d]]
    && s'.reps[i].journal[d].WriteSlot? && IsPayload(s, d, s'.reps[i].journal[d])
    && (forall e :: s.trk.base < e && s.reps[i].commit < e <= s'.reps[i].commit ==> ResolvedAt(s.trk, e))
    && s.legs[d][i].arrived == NotYet
    && s'.legs == s.legs[d := s.legs[d][i := s.legs[d][i].(arrived := Accepted)]]
  }

  lemma AcceptKeepsLegs(s: State, s': State, d: Lsn, i: nat)
    requires LegsOk(s) && AcceptStep(s, s', d, i)
    ensures LegsOk(s')
  {
    forall e, k | IsLeg(s', e, k) ensures LegOk(s', e, k) { assert IsLeg(s, e, k) && LegOk(s, e, k); }
  }

  lemma AcceptKeepsData(s: State, s': State, d: Lsn, i: nat)
    requires DataOk(s) && AcceptStep(s, s', d, i)
    requires forall e :: 0 <= e <= s.reps[i].commit ==> e in s.reps[i].journal
    requires -1 <= s.trk.base < d
    ensures DataOk(s')
  {
    forall k, e | 0 <= k < |s'.reps| && s'.trk.base < e && HoldsAt(s'.reps[k], e) ensures DatumOk(s', k, e) {
      if k == i && e == d {
        assert IsLeg(s', d, i) && s'.legs[d][i].arrived == Accepted;
        assert HoldsAt(s.reps[i], d) ==> DatumOk(s, i, d);
      } else {
        assert HoldsAt(s.reps[k], e) && DatumOk(s, k, e);
        var j :| IsLeg(s, e, j) && s.legs[e][j].arrived == Accepted;
        assert IsLeg(s', e, j) && s'.legs[e][j].arrived == Accepted;
      }
    }
  }

  lemma AcceptKeepsVerdicts(s: State, s': State, d: Lsn, i: nat)
    requires EmptyOk(s) && FoundersOk(s) && AcceptStep(s, s', d, i)
    ensures EmptyOk(s') && FoundersOk(s')
  {
    forall k, e | 0 <= k < |s'.reps| && s'.trk.base < e && IsEmptyAt(s'.reps[k], e) ensures e in s'.founders {
      assert IsEmptyAt(s.reps[k], e);
    }
    forall e | e in s'.founders ensures FounderOk(s', e) {
      assert FounderOk(s, e);
      forall k | k in s'.founders[e] ensures FoundedBy(s', e, k) { assert FoundedBy(s, e, k); }
    }
  }

  lemma AcceptKeepsOutcomes(s: State, s': State, d: Lsn, i: nat)
    requires LegsOk(s) && AckedOk(s) && VoidOk(s) && AcceptStep(s, s', d, i) && |s.legs[d]| == |s.reps|
    ensures AckedOk(s') && VoidOk(s')
  {
    forall e | AckedAt(s'.trk, e) ensures e !in s'.founders && |HoldersOf(s'.reps, e)| >= Quorum(|s'.reps|) {
      assert AckedAt(s.trk, e);
      assert HoldersOf(s.reps, e) <= HoldersOf(s'.reps, e);
      SubsetSize(HoldersOf(s.reps, e), HoldersOf(s'.reps, e));
    }
    forall e | VoidAt(s'.trk, e) ensures e in s'.founders || AllRejected(s', e) {
      assert VoidAt(s.trk, e);
      assert Refusals(s', e) == Refusals(s, e);
    }
  }

  lemma AcceptKeepsExcl(s: State, s': State, d: Lsn, i: nat)
    requires ExclInv(s) && AcceptStep(s, s', d, i) && Linked(s')
    ensures ExclInv(s')
  {
    LegIsWrite(s, d, i);
    hide AcceptStep, LegsOk, DataOk, EmptyOk, FoundersOk, AckedOk, VoidOk, Linked;
    AcceptKeepsLegs(s, s', d, i);
    AcceptKeepsData(s, s', d, i);
    AcceptKeepsVerdicts(s, s', d, i);
    AcceptKeepsOutcomes(s, s', d, i);
  }

  lemma LegIsWrite(s: State, d: Lsn, i: nat)
    requires Linked(s) && IsLeg(s, d, i)
    ensures i < |s.reps| == |s.legs[d]| && -1 <= s.trk.base < d
    ensures forall e :: 0 <= e <= s.reps[i].commit ==> e in s.reps[i].journal
  {
    assert PrefixPresent(s.reps[i]);
  }

  /** A tombstone refuses the write: only the leg changes. */
  lemma RefuseKeepsExcl(s: State, s': State, d: Lsn, i: nat)
    requires ExclInv(s) && IsLeg(s, d, i) && s.legs[d][i].arrived == NotYet && Linked(s')
    requires s' == SetLeg(s, d, i, s.legs[d][i].(arrived := Refused))
    ensures ExclInv(s')
  {
    assert LegOk(s, d, i);
    LegChangeIsCalm(s, d, i, s.legs[d][i].(arrived := Refused));
    CalmKeepsExcl(s, s');
  }

  lemma DeliverKeepsExcl(s: State, d: Lsn, i: nat, c: Lsn)
    requires ExclInv(s) && Enabled(s, Deliver(d, i, c))
    ensures ExclInv(Next(s, Deliver(d, i, c)))
  {
    assert Linked(s);
    hide ExclInv, Linked, JournalOk, PrefixPresent, DoKeepAlive, Classify, Resolve, NextRound, NextComplete, NextSend;
    hide FoldNext, AdvanceSynced, SlotOf, Aligned, DoWrite, AcceptStep;
    LegIsWrite(s, d, i);
    var s' := Next(s, Deliver(d, i, c));
    DeliverEffect(s, d, i, c);
    DeliverLinks(s, d, i, c);
    if IsEmptyAt(s.reps[i], d) {
      assert s.reps[i := s.reps[i]] == s.reps;
      RefuseKeepsExcl(s, s', d, i);
    } else {
      DeliverAccepts(s, d, i, c);
      AcceptKeepsExcl(s, s', d, i);
    }
  }

  lemma DeliverLinks(s: State, d: Lsn, i: nat, c: Lsn)
    requires Linked(s) && Enabled(s, Deliver(d, i, c))
    ensures Linked(Next(s, Deliver(d, i, c)))
  {
    var s' := Next(s, Deliver(d, i, c));
    DeliverEffect(s, d, i, c);
    forall e | e in s'.writes ensures WriteOk(s', e) { assert WriteOk(s, e); }
  }

  lemma DeliverAccepts(s: State, d: Lsn, i: nat, c: Lsn)
    requires Linked(s) && Enabled(s, Deliver(d, i, c)) && !IsEmptyAt(s.reps[i], d)
    ensures AcceptStep(s, Next(s, Deliver(d, i, c)), d, i)
  {
    var s' := Next(s, Deliver(d, i, c));
    DeliverEffect(s, d, i, c);
    assert WriteOk(s, d);
    forall e | s.trk.base < e && s.reps[i].commit < e <= s'.reps[i].commit ensures ResolvedAt(s.trk, e) {
      FrontierResolved(s.trk, e);
    }
  }
}
