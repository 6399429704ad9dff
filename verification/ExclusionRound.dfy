/** A resolution round over any live majority keeps the exclusion invariant. */
module ExclusionRound {
  import opened CraftTypes
  import opened Replica
  import opened Tracker
  import opened Router
  import opened Cluster
  import opened Protocol
  import opened Exclusion
  import opened ExclusionSteps

  predicate Scanned(s: State, live: set<nat>, upto: Lsn, d: Lsn) {
    ScanStart(s.reps, live) <= d <= upto
  }

  /** Everything a round changes outside the router. */
  ghost predicate RoundStep(s: State, s': State, live: set<nat>, leader: nat, upto: Lsn)
    requires Wf(s)
  {
    && LiveQuorum(s.reps, live) && leader in live && s.trk.base < upto < s.trk.next
    && s'.reps == RunResolution(s.reps, live, upto, s.pageSize)
    && s'.founders == AddFounders(s, live, upto)
    && s'.legs == s.legs && s'.writes == s.writes && s'.pageSize == s.pageSize
    && s'.trk.base == s.trk.base && s'.trk.slots.Keys == s.trk.slots.Keys
    && (forall d :: d in s.trk.slots ==>
          s'.trk.slots[d] == s.trk.slots[d].(outcome :=
            RetiredOutcome(s.trk, d, s.trk.frontier + 1, upto, Empties(s'.reps[leader], upto))))
  }

  /** What the round leaves at `d` on member `i`. */
  lemma RoundEntry(s: State, s': State, live: set<nat>, leader: nat, upto: Lsn, i: nat, d: Lsn)
    requires Wf(s) && DataOk(s) && RoundStep(s, s', live, leader, upto)
    requires i < |s.reps| && s.trk.base < d
    ensures i in live && Scanned(s, live, upto, d) && VerdictEmpty(s.reps, live, d) ==> IsEmptyAt(s'.reps[i], d)
    ensures i in live && Scanned(s, live, upto, d) && !VerdictEmpty(s.reps, live, d) ==>
      HoldsAt(s'.reps[i], d) && IsPayload(s, d, s'.reps[i].journal[d])
    ensures i !in live || !Scanned(s, live, upto, d) ==> Untouched(s.reps[i], s'.reps[i], d)
    ensures s.reps[i].commit <= s'.reps[i].commit <= Max(s.reps[i].commit, upto)
    ensures i !in live ==> s'.reps[i] == s.reps[i]
  {
    hide RunResolution, AddFounders, Empties, RetiredOutcome;
    RoundAt(s.reps, live, upto, s.pageSize, i, d);
    if i in live && !VerdictEmpty(s.reps, live, d) {
      HolderFound(s.reps, live, d);
      var h := FirstHolder(s.reps, live, d, 0);
      assert DatumOk(s, h, d);
      assert !IsEmptyAt(s.reps[i], d);
      if d in s.reps[i].journal { assert DatumOk(s, i, d); }
    }
  }

  /** A tombstone survives every round, and data disappears only under a verdict that was already there. */
  lemma RoundFate(s: State, s': State, live: set<nat>, leader: nat, upto: Lsn, i: nat, d: Lsn)
    requires Wf(s) && DataOk(s) && EmptyOk(s) && RoundStep(s, s', live, leader, upto)
    requires i < |s.reps| && s.trk.base < d
    ensures IsEmptyAt(s.reps[i], d) ==> IsEmptyAt(s'.reps[i], d)
    ensures HoldsAt(s.reps[i], d) && !HoldsAt(s'.reps[i], d) ==> d in s.founders
    ensures IsEmptyAt(s'.reps[i], d) ==> d in s'.founders
    ensures HoldsAt(s'.reps[i], d) && !HoldsAt(s.reps[i], d) ==> d !in s.reps[i].journal && AnyHolder(s.reps, live, d)
  {
    hide RunResolution, Empties, RetiredOutcome;
    RoundEntry(s, s', live, leader, upto, i, d);
  }

  /** What is still unresolved and not Empty at the leader was scanned and is now on every live member. */
  lemma RoundFills(s: State, s': State, live: set<nat>, leader: nat, upto: Lsn, d: Lsn)
    requires Linked(s) && DataOk(s) && RoundStep(s, s', live, leader, upto)
    requires s.trk.base < d <= upto && !ResolvedAt(s.trk, d) && !IsEmptyAt(s'.reps[leader], d)
    ensures Scanned(s, live, upto, d) && !VerdictEmpty(s.reps, live, d)
    ensures live <= HoldersOf(s'.reps, d)
  {
    RoundSettles(s.reps, live, upto, s.pageSize, leader, d);
    RoundEntry(s, s', live, leader, upto, leader, d);
    assert HoldsAt(s'.reps[leader], d);
    assert HoldsAt(s.reps[leader], d) ==> DatumOk(s, leader, d);
    assert Floor(s.reps, live, |s.reps|).Some?;
    forall i | i in live ensures i in HoldersOf(s'.reps, d) {
      RoundEntry(s, s', live, leader, upto, i, d);
    }
  }

  lemma RoundKeepsLegs(s: State, s': State, live: set<nat>, leader: nat, upto: Lsn)
    requires Linked(s) && LegsOk(s) && DataOk(s) && EmptyOk(s) && RoundStep(s, s', live, leader, upto)
    ensures LegsOk(s')
  {
    forall d, i | IsLeg(s', d, i) ensures LegOk(s', d, i) {
      assert IsLeg(s, d, i) && LegOk(s, d, i);
      assert d in s.trk.slots;
      RoundFate(s, s', live, leader, upto, i, d);
    }
  }

  lemma RoundResolves(s: State, s': State, live: set<nat>, leader: nat, upto: Lsn, d: Lsn)
    requires TrkInv(s.trk) && Wf(s) && RoundStep(s, s', live, leader, upto)
    requires d in s.trk.slots && d <= upto
    ensures ResolvedAt(s'.trk, d)
  {
    hide RunResolution, AddFounders, Empties, LiveQuorum, Journals;
    if d <= s.trk.frontier { FrontierResolved(s.trk, d); }
  }

  lemma RoundKeepsDatum(s: State, s': State, live: set<nat>, leader: nat, upto: Lsn, i: nat, d: Lsn)
    requires Linked(s) && DataOk(s) && EmptyOk(s) && RoundStep(s, s', live, leader, upto)
    requires i < |s'.reps| && s.trk.base < d && HoldsAt(s'.reps[i], d)
    ensures DatumOk(s', i, d)
  {
    RoundEntry(s, s', live, leader, upto, i, d);
    RoundFate(s, s', live, leader, upto, i, d);
    var h := if HoldsAt(s.reps[i], d) then i else FirstHolder(s.reps, live, d, 0);
    HolderFound(s.reps, live, d);
    assert DatumOk(s, h, d);
    var j :| IsLeg(s, d, j) && s.legs[d][j].arrived == Accepted;
    assert IsLeg(s', d, j);
    if d <= upto {
      RoundResolves(s, s', live, leader, upto, d);
    } else if d <= s'.reps[i].commit {
      assert d <= s.reps[i].commit && HoldsAt(s.reps[i], d);
      assert ResolvedAt(s.trk, d);
    }
  }

  lemma RoundKeepsVerdicts(s: State, s': State, live: set<nat>, leader: nat, upto: Lsn)
    requires Linked(s) && LegsOk(s) && DataOk(s) && EmptyOk(s) && FoundersOk(s)
    requires RoundStep(s, s', live, leader, upto)
    ensures EmptyOk(s') && FoundersOk(s')
  {
    forall i, d | 0 <= i < |s'.reps| && s'.trk.base < d && IsEmptyAt(s'.reps[i], d) ensures d in s'.founders {
      RoundFate(s, s', live, leader, upto, i, d);
    }
    forall d | d in s'.founders ensures FounderOk(s', d) {
      assert d in s.founders ==> FounderOk(s, d);
      RoundKeepsFounder(s, s', live, leader, upto, d);
    }
  }

  lemma RoundKeepsFounder(s: State, s': State, live: set<nat>, leader: nat, upto: Lsn, d: Lsn)
    requires Linked(s) && LegsOk(s) && DataOk(s) && EmptyOk(s) && FoundersOk(s)
    requires RoundStep(s, s', live, leader, upto) && d in s'.founders && s.trk.base < d
    ensures FounderOk(s', d)
  {
    if d in s.founders {
      assert FounderOk(s, d);
      forall i | i in s'.founders[d] ensures FoundedBy(s', d, i) {
        assert FoundedBy(s, d, i);
        RoundFate(s, s', live, leader, upto, i, d);
      }
    } else {
      forall i | i in s'.founders[d] ensures FoundedBy(s', d, i) {
        RoundEntry(s, s', live, leader, upto, i, d);
        if IsLeg(s, d, i) { assert LegOk(s, d, i); }
      }
    }
  }

  /** An acked slot is on a majority, so no live majority can call it Empty. */
  lemma AckedNotVoided(s: State, s': State, live: set<nat>, leader: nat, upto: Lsn, d: Lsn)
    requires Linked(s) && DataOk(s) && EmptyOk(s) && AckedOk(s) && RoundStep(s, s', live, leader, upto)
    requires AckedAt(s.trk, d)
    ensures d !in s'.founders && |HoldersOf(s'.reps, d)| >= Quorum(|s'.reps|)
  {
    var h := QuorumsIntersect(|s.reps|, live, HoldersOf(s.reps, d));
    assert AnyHolder(s.reps, live, d);
    forall i | i in HoldersOf(s.reps, d) ensures i in HoldersOf(s'.reps, d) {
      RoundFate(s, s', live, leader, upto, i, d);
    }
    SubsetSize(HoldersOf(s.reps, d), HoldersOf(s'.reps, d));
  }

  /** A slot the retire acks was filled on the whole live majority, and no founder set can stand against it. */
  lemma FilledNotVoided(s: State, s': State, live: set<nat>, leader: nat, upto: Lsn, d: Lsn)
    requires Linked(s) && DataOk(s) && EmptyOk(s) && FoundersOk(s) && RoundStep(s, s', live, leader, upto)
    requires s.trk.base < d <= upto && !ResolvedAt(s.trk, d) && !IsEmptyAt(s'.reps[leader], d)
    ensures d !in s'.founders && |HoldersOf(s'.reps, d)| >= Quorum(|s'.reps|)
  {
    RoundFills(s, s', live, leader, upto, d);
    SubsetSize(live, HoldersOf(s'.reps, d));
    if d in s.founders {
      assert FounderOk(s, d);
      var i := QuorumsIntersect(|s.reps|, live, s.founders[d]);
      assert FoundedBy(s, d, i);
      assert AnyEmpty(s.reps, live, d);
    }
  }

  lemma RoundKeepsAcked(s: State, s': State, live: set<nat>, leader: nat, upto: Lsn)
    requires Linked(s) && DataOk(s) && EmptyOk(s) && FoundersOk(s) && AckedOk(s) && RoundStep(s, s', live, leader, upto)
    ensures AckedOk(s')
  {
    hide RunResolution, AddFounders, DataOk, EmptyOk, FoundersOk, HoldersOf;
    forall d | AckedAt(s'.trk, d) ensures d !in s'.founders && |HoldersOf(s'.reps, d)| >= Quorum(|s'.reps|) {
      if AckedAt(s.trk, d) {
        AckedNotVoided(s, s', live, leader, upto, d);
      } else {
        assert !ResolvedAt(s.trk, d);
        FilledNotVoided(s, s', live, leader, upto, d);
      }
    }
  }

  lemma RoundKeepsVoid(s: State, s': State, live: set<nat>, leader: nat, upto: Lsn)
    requires Linked(s) && DataOk(s) && EmptyOk(s) && VoidOk(s) && RoundStep(s, s', live, leader, upto)
    ensures VoidOk(s')
  {
    hide RunResolution, AddFounders, DataOk, EmptyOk;
    forall d | VoidAt(s'.trk, d) ensures d in s'.founders || AllRejected(s', d) {
      if VoidAt(s.trk, d) {
        assert Refusals(s', d) == Refusals(s, d);
      } else {
        assert IsEmptyAt(s'.reps[leader], d);
        RoundFate(s, s', live, leader, upto, leader, d);
      }
    }
  }

  // ---------------------------------------------------------------- the router's side

  lemma {:induction false} NoteAllKeys(r: Route, t: Trk, d: Lsn, hi: Lsn, empties: set<Lsn>, leader: nat)
    ensures var r' := NoteAll(r, t, d, hi, empties, leader);
      && r'.overlay.Keys == r.overlay.Keys && SameFolds(r, r')
      && r'.synced == r.synced && r'.allCommitted == r.allCommitted && r'.done == r.done
      && (forall e :: e in r.overlay ==> SlotGrows(r.overlay[e], r'.overlay[e]))
    decreases hi - d + 1
  {
    if d <= hi {
      NoteAllKeys(NoteOne(r, t, d, empties, leader), t, d + 1, hi, empties, leader);
    }
  }

  /** Slot by slot, what retiring a reply does to the tracker. */
  ghost predicate Retired(t: Trk, t': Trk, upto: Lsn, empties: set<Lsn>) {
    && TrkInv(t') && Grows(t, t')
    && (forall d :: d in t.slots ==>
          t'.slots[d] == t.slots[d].(outcome := RetiredOutcome(t, d, t.frontier + 1, upto, empties)))
  }

  lemma ReplyRetires(s: State, reps: seq<Rep>, founders: map<Lsn, set<nat>>, leader: nat, upto: Lsn)
    requires TrkInv(s.trk) && leader < |reps| && upto < s.trk.next
    ensures Retired(s.trk, ApplyReply(s, reps, founders, leader, upto).trk, upto, Empties(reps[leader], upto))
  {
    hide NoteAll, Retire, Empties, TrkInv;
    RetireExact(s.trk, s.trk.frontier + 1, upto, Empties(reps[leader], upto));
  }

  lemma RoundIsStep(s: State, live: set<nat>, leader: nat, upto: Lsn)
    requires Linked(s) && Enabled(s, Round(live, leader, upto))
    ensures RoundStep(s, NextRound(s, live, leader, upto), live, leader, upto)
    ensures TrkInv(NextRound(s, live, leader, upto).trk) && Grows(s.trk, NextRound(s, live, leader, upto).trk)
  {
    hide RunResolution, AddFounders, NoteAll, Retire, Empties, TrkInv, RetiredOutcome;
    LinkedTracker(s);
    ReplyRetires(s, RunResolution(s.reps, live, upto, s.pageSize), AddFounders(s, live, upto), leader, upto);
  }

  lemma LinkedTracker(s: State)
    requires Linked(s)
    ensures TrkInv(s.trk)
  {
  }

  lemma LinkedRep(s: State, i: nat)
    requires Linked(s) && i < |s.reps|
    ensures Journals(s.reps, s.pageSize) && PrefixPresent(s.reps[i]) && s.reps[i].term == s.term
  {
  }

  lemma RoundReps(s: State, live: set<nat>, leader: nat, upto: Lsn, i: nat)
    requires Linked(s) && Enabled(s, Round(live, leader, upto)) && i < |s.reps|
    ensures var r' := RunResolution(s.reps, live, upto, s.pageSize)[i];
      r'.term == s.term && PrefixPresent(r')
  {
    hide Scan, ScanStart, Linked, Wf;
    var lo := ScanStart(s.reps, live);
    LinkedRep(s, i);
    ScanKeepsJournals(s.reps, live, lo, upto, s.pageSize);
    var m := Scan(s.reps, live, lo, upto)[i];
    ScanAt(s.reps, live, lo, upto, i, 0);
    forall d | 0 <= d <= m.commit ensures d in m.journal { ScanAt(s.reps, live, lo, upto, i, d); }
    assert PrefixPresent(m);
  }

  lemma ReplyLinks(s: State, reps: seq<Rep>, founders: map<Lsn, set<nat>>, leader: nat, upto: Lsn)
    requires Linked(s) && leader < |reps| && |reps| == |s.reps| && upto < s.trk.next && Journals(reps, s.pageSize)
    requires forall i :: 0 <= i < |reps| ==> reps[i].term == s.term && PrefixPresent(reps[i])
    ensures Linked(ApplyReply(s, reps, founders, leader, upto))
  {
    var s' := ApplyReply(s, reps, founders, leader, upto);
    ReplyRetires(s, reps, founders, leader, upto);
    NoteAllKeys(s.route, s.trk, s.trk.frontier + 1, upto, Empties(reps[leader], upto), leader);
    forall e | e in s'.writes ensures WriteOk(s', e) { assert WriteOk(s, e); }
  }

  lemma RoundLinks(s: State, live: set<nat>, leader: nat, upto: Lsn)
    requires Linked(s) && Enabled(s, Round(live, leader, upto))
    ensures Linked(NextRound(s, live, leader, upto))
  {
    var reps := RunResolution(s.reps, live, upto, s.pageSize);
    RoundJournals(s.reps, live, upto, s.pageSize);
    forall i | 0 <= i < |reps| ensures reps[i].term == s.term && PrefixPresent(reps[i]) {
      RoundReps(s, live, leader, upto, i);
    }
    ReplyLinks(s, reps, AddFounders(s, live, upto), leader, upto);
  }

  lemma RoundKeepsExcl(s: State, live: set<nat>, leader: nat, upto: Lsn)
    requires ExclInv(s) && Enabled(s, Round(live, leader, upto))
    ensures ExclInv(NextRound(s, live, leader, upto))
  {
    var s' := NextRound(s, live, leader, upto);
    RoundIsStep(s, live, leader, upto);
    RoundLinks(s, live, leader, upto);
    RoundKeepsLegs(s, s', live, leader, upto);
    assert DataOk(s') by {
      forall i, d | 0 <= i < |s'.reps| && s'.trk.base < d && HoldsAt(s'.reps[i], d) ensures DatumOk(s', i, d) {
        RoundKeepsDatum(s, s', live, leader, upto, i, d);
      }
    }
    RoundKeepsVerdicts(s, s', live, leader, upto);
    RoundKeepsAcked(s, s', live, leader, upto);
    RoundKeepsVoid(s, s', live, leader, upto);
  }

  // ---------------------------------------------------------------- all steps

  lemma StepKeepsExcl(s: State, step: Step)
    requires ExclInv(s) && Enabled(s, step)
    ensures ExclInv(Next(s, step))
  {
    hide LegsOk, DataOk, EmptyOk, FoundersOk, AckedOk, VoidOk, Calm;
    match step
    case Count => CountIsCalm(s); CalmKeepsExcl(s, Next(s, step));
    case Publish(d, w) => PublishIsCalm(s, d, w); CalmKeepsExcl(s, Next(s, step));
    case Send(d) => SendIsCalm(s, d); CalmKeepsExcl(s, Next(s, step));
    case Deliver(d, i, c) => DeliverKeepsExcl(s, d, i, c);
    case Drop(d, i) => DropIsCalm(s, d, i); CalmKeepsExcl(s, Next(s, step));
    case Complete(d, i, report) => CompleteIsCalm(s, d, i, report); CalmKeepsExcl(s, Next(s, step));
    case Conclude(d) => ConcludeKeepsExcl(s, d);
    case Ping(i, c) => PingIsCalm(s, i, c); CalmKeepsExcl(s, Next(s, step));
    case Round(live, leader, upto) => RoundKeepsExcl(s, live, leader, upto);
    case _ => RouterStepIsCalm(s, step); CalmKeepsExcl(s, Next(s, step));
  }
}
