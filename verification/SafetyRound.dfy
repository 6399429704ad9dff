/** A resolution round keeps the session invariant when it reaches every member it must. */
module SafetyRound {
  import opened CraftTypes
  import opened Replica
  import opened Tracker
  import opened Router
  import opened Cluster
  import opened Protocol
  import opened Exclusion
  import opened ExclusionRound
  import opened Runs
  import opened Safety
  import opened SafetySteps

  // ---------------------------------------------------------------- the replicas

  /** Where one member has a tombstone, any entry of another is a tombstone too. */
  lemma EmptyAgrees(s: State, i: nat, k: nat, d: Lsn)
    requires ExclInv(s) && Stores(s) && i < |s.reps| && k < |s.reps|
    requires IsEmptyAt(s.reps[k], d) && d in s.reps[i].journal
    ensures IsEmptyAt(s.reps[i], d)
  {
    if d <= s.trk.base {
      assert EntryOk(s, i, d) && EntryOk(s, k, d);
    } else {
      EmptyEverywhere(s, d, i);
    }
  }

  /** An entry that is there keeps its content: verdicts only meet tombstones. */
  lemma RoundKeepsEntry(s: State, live: set<nat>, i: nat, d: Lsn)
    requires ExclInv(s) && Stores(s) && i < |s.reps| && i in live && d in s.reps[i].journal
    ensures SettledEntry(s.reps, live, i, d) == s.reps[i].journal[d]
  {
    if AnyEmpty(s.reps, live, d) {
      var k :| 0 <= k < |s.reps| && k in live && IsEmptyAt(s.reps[k], d);
      EmptyAgrees(s, i, k, d);
    }
    assert HoldsAt(s.reps[i], d) ==> AnyHolder(s.reps, live, d);
  }

  /** What a hole becomes: below the login dLSN the agreed entry, above it session data or a set-wide tombstone. */
  lemma RoundFillsHole(s: State, live: set<nat>, leader: nat, upto: Lsn, i: nat, d: Lsn)
    requires ExclInv(s) && Stores(s) && Enabled(s, Round(live, leader, upto)) && FullRound(s, live, upto)
    requires i < |s.reps| && i in live && d !in s.reps[i].journal && Scanned(s, live, upto, d)
    ensures 0 <= d
    ensures d <= s.trk.base ==> d in s.base && SettledEntry(s.reps, live, i, d) == s.base[d]
  {
    assert ScanStart(s.reps, live) >= 0 by {
      var f := Floor(s.reps, live, |s.reps|);
      assert forall k :: 0 <= k < |s.reps| ==> -1 <= s.reps[k].commit;
    }
    if d <= s.trk.base {
      assert EntryOk(s, s.anchor, d);
      assert IsEmptyAt(s.reps[s.anchor], d) || HoldsAt(s.reps[s.anchor], d);
      assert s.anchor in live ==> AnyEmpty(s.reps, live, d) || AnyHolder(s.reps, live, d);
      assert !Unseen(s, live, upto, d);
      HolderFound(s.reps, live, d);
      if AnyEmpty(s.reps, live, d) {
        var k :| 0 <= k < |s.reps| && k in live && IsEmptyAt(s.reps[k], d);
        assert EntryOk(s, k, d);
      } else {
        assert EntryOk(s, FirstHolder(s.reps, live, d, 0), d);
      }
    }
  }

  /** A round changes no entry that was there; new entries at or below the login dLSN are the agreed ones. */
  lemma RoundEntries(s: State, live: set<nat>, leader: nat, upto: Lsn, i: nat, d: Lsn)
    requires ExclInv(s) && Stores(s) && Enabled(s, Round(live, leader, upto)) && FullRound(s, live, upto)
    requires i < |s.reps|
    ensures var r' := RunResolution(s.reps, live, upto, s.pageSize)[i];
      && (d in s.reps[i].journal ==> d in r'.journal && r'.journal[d] == s.reps[i].journal[d])
      && (d in r'.journal && d !in s.reps[i].journal ==>
            0 <= d && (d <= s.trk.base ==> d in s.base && r'.journal[d] == s.base[d]))
      && s.reps[i].commit <= r'.commit
  {
    RoundAt(s.reps, live, upto, s.pageSize, i, d);
    if d in s.reps[i].journal {
      if i in live { RoundKeepsEntry(s, live, i, d); }
    } else if i in live && Scanned(s, live, upto, d) {
      RoundFillsHole(s, live, leader, upto, i, d);
    }
  }

  lemma ScanKeepsRep(s: State, live: set<nat>, upto: Lsn, i: nat, m: Rep)
    requires ExclInv(s) && Stores(s) && i < |s.reps|
    requires m == Scan(s.reps, live, ScanStart(s.reps, live), upto)[i] && JournalOk(s.pageSize, m.journal)
    ensures RepInv(m)
  {
    hide Scan, ScanStart, ExclInv, Stores, Replay, Wf;
    var r := s.reps[i];
    var lo := ScanStart(s.reps, live);
    RepIs(s, i);
    ScanAt(s.reps, live, lo, upto, i, 0);
    forall d | 0 <= d <= r.commit ensures d in m.journal && d in r.journal && m.journal[d] == r.journal[d] {
      ScanAt(s.reps, live, lo, upto, i, d);
      if i in live { RoundKeepsEntry(s, live, i, d); }
    }
    ReplayDependsOnPrefix(s.pageSize, r.journal, m.journal, r.commit);
  }

  lemma RepIs(s: State, i: nat)
    requires ExclInv(s) && Stores(s) && i < |s.reps|
    ensures RepInv(s.reps[i]) && s.reps[i].pageSize == s.pageSize && Wf(s)
  {
  }

  lemma RoundKeepsRep(s: State, live: set<nat>, leader: nat, upto: Lsn, i: nat)
    requires ExclInv(s) && Stores(s) && Enabled(s, Round(live, leader, upto)) && i < |s.reps|
    ensures RepInv(RunResolution(s.reps, live, upto, s.pageSize)[i])
  {
    var lo := ScanStart(s.reps, live);
    ScanKeepsJournals(s.reps, live, lo, upto, s.pageSize);
    var m := Scan(s.reps, live, lo, upto)[i];
    ScanKeepsRep(s, live, upto, i, m);
    if i in live { ApplyKeepsInv(m, upto); }
  }

  /** The replicas of `s'` keep every entry of `s`; what is new at or below the login dLSN is agreed. */
  ghost predicate StoresStep(s: State, s': State) {
    && |s'.reps| == |s.reps| && s'.base == s.base && s'.anchor == s.anchor && s'.trk.base == s.trk.base
    && (forall i :: 0 <= i < |s.reps| ==> RepInv(s'.reps[i]))
    && (forall i :: 0 <= i < |s.reps| ==> s.reps[i].commit <= s'.reps[i].commit)
    && (forall i, d :: 0 <= i < |s.reps| && d in s.reps[i].journal ==>
          d in s'.reps[i].journal && s'.reps[i].journal[d] == s.reps[i].journal[d])
    && (forall i, d :: 0 <= i < |s.reps| && d in s'.reps[i].journal && d !in s.reps[i].journal ==> EntryOk(s', i, d))
  }

  lemma StoresStepKeeps(s: State, s': State)
    requires RepsOk(s) && BaseOk(s) && StoresStep(s, s')
    ensures RepsOk(s') && BaseOk(s') && Held(s) <= Held(s')
  {
    forall i, d | 0 <= i < |s'.reps| && d in s'.reps[i].journal ensures EntryOk(s', i, d) {
      assert d in s.reps[i].journal ==> EntryOk(s, i, d);
    }
  }

  lemma RoundKeepsStores(s: State, s': State, live: set<nat>, leader: nat, upto: Lsn)
    requires ExclInv(s) && Stores(s) && Enabled(s, Round(live, leader, upto)) && FullRound(s, live, upto)
    requires RoundStep(s, s', live, leader, upto) && s'.base == s.base && s'.anchor == s.anchor
    ensures Stores(s') && Held(s) <= Held(s') && StoresStep(s, s')
  {
    forall i | 0 <= i < |s.reps| ensures RepInv(s'.reps[i]) && s.reps[i].commit <= s'.reps[i].commit {
      RoundKeepsRep(s, live, leader, upto, i);
      RoundEntries(s, live, leader, upto, i, 0);
    }
    forall i, d | 0 <= i < |s.reps| && d in s.reps[i].journal
      ensures d in s'.reps[i].journal && s'.reps[i].journal[d] == s.reps[i].journal[d]
    {
      RoundEntries(s, live, leader, upto, i, d);
    }
    forall i, d | 0 <= i < |s.reps| && d in s'.reps[i].journal && d !in s.reps[i].journal ensures EntryOk(s', i, d) {
      RoundEntries(s, live, leader, upto, i, d);
    }
    StoresStepKeeps(s, s');
    forall d | d in s'.founders ensures s'.founders[d] == Members(|s'.reps|) {
      if d !in s.founders { assert Unseen(s, live, upto, d); }
    }
  }

  // ---------------------------------------------------------------- the client's books

  /** The on_filled callbacks, slot by slot. */
  function NotedSlot(o: RouteSlot, leader: nat): RouteSlot {
    o.(holders := o.holders + {leader}, verdict := true)
  }

  lemma {:induction false} NoteAllAt(r: Route, t: Trk, lo: Lsn, hi: Lsn, empties: set<Lsn>, leader: nat, e: Lsn)
    requires e in r.overlay
    ensures e in NoteAll(r, t, lo, hi, empties, leader).overlay
    ensures NoteAll(r, t, lo, hi, empties, leader).overlay[e] ==
      if lo <= e <= hi && FilledAt(t, empties, e) then NotedSlot(r.overlay[e], leader) else r.overlay[e]
    decreases hi - lo + 1
  {
    if lo <= hi {
      var r1 := NoteOne(r, t, lo, empties, leader);
      assert lo != e ==> r1.overlay[e] == r.overlay[e];
      NoteAllAt(r1, t, lo + 1, hi, empties, leader, e);
    }
  }

  lemma NoteOneAgrees(r: Route, held: Holdings, t: Trk, d: Lsn, empties: set<Lsn>, leader: nat)
    requires RouteInv(r, held) && AboveFolds(r, d) && leader < r.n
    requires FilledAt(t, empties, d) && d in r.overlay ==> (d, leader) in held
    ensures RouteInv(NoteOne(r, t, d, empties, leader), held)
    ensures var r' := NoteOne(r, t, d, empties, leader);
      SameFolds(r, r') && r'.overlay.Keys == r.overlay.Keys
  {
    if FilledAt(t, empties, d) && d in r.overlay { FilledAgrees(r, held, d, leader); }
  }

  lemma {:induction false} NoteAllAgrees(r: Route, held: Holdings, t: Trk, lo: Lsn, hi: Lsn, empties: set<Lsn>,
                                         leader: nat)
    requires RouteInv(r, held) && AboveFolds(r, lo) && leader < r.n
    requires forall d :: lo <= d <= hi && FilledAt(t, empties, d) && d in r.overlay ==> (d, leader) in held
    ensures RouteInv(NoteAll(r, t, lo, hi, empties, leader), held)
    decreases hi - lo + 1
  {
    if lo <= hi {
      NoteOneAgrees(r, held, t, lo, empties, leader);
      NoteAllAgrees(NoteOne(r, t, lo, empties, leader), held, t, lo + 1, hi, empties, leader);
    }
  }

  /** What the books look like after a reply, slot by slot. */
  ghost predicate Noted(s: State, s': State, leader: nat, upto: Lsn)
    requires leader < |s'.reps|
  {
    var empties := Empties(s'.reps[leader], upto);
    && s'.route.n == s.route.n && s'.route.overlay.Keys == s.route.overlay.Keys && SameFolds(s.route, s'.route)
    && s'.route.synced == s.route.synced
    && (forall e :: e in s.route.overlay ==> NotedAt(s, s', leader, upto, empties, e))
  }

  ghost predicate NotedAt(s: State, s': State, leader: nat, upto: Lsn, empties: set<Lsn>, e: Lsn)
    requires e in s.route.overlay && e in s'.route.overlay
  {
    s'.route.overlay[e] ==
      if s.trk.frontier < e <= upto && FilledAt(s.trk, empties, e) then NotedSlot(s.route.overlay[e], leader)
      else s.route.overlay[e]
  }

  lemma ReplyNotes(s: State, reps: seq<Rep>, founders: map<Lsn, set<nat>>, leader: nat, upto: Lsn)
    requires leader < |reps| && upto < s.trk.next
    ensures Noted(s, ApplyReply(s, reps, founders, leader, upto), leader, upto)
  {
    var empties := Empties(reps[leader], upto);
    var lo := s.trk.frontier + 1;
    NoteAllKeys(s.route, s.trk, lo, upto, empties, leader);
    forall e | e in s.route.overlay
      ensures NotedAt(s, ApplyReply(s, reps, founders, leader, upto), leader, upto, empties, e)
    {
      NoteAllAt(s.route, s.trk, lo, upto, empties, leader, e);
    }
  }

  lemma RoundCounts(s: State, s': State, leader: nat, upto: Lsn)
    requires LegsCounted(s) && |s'.reps| == |s.reps| && s'.legs == s.legs && leader < |s'.reps|
    requires Noted(s, s', leader, upto)
    ensures LegsCounted(s')
  {
    forall e | e in s'.route.overlay ensures Counted(s', e) {
      assert Counted(s, e) && NotedAt(s, s', leader, upto, Empties(s'.reps[leader], upto), e);
      assert forall i :: IsLeg(s', e, i) <==> IsLeg(s, e, i);
    }
  }

  lemma RoundDurable(s: State, s': State, live: set<nat>, leader: nat, upto: Lsn)
    requires ExclInv(s) && AckedDurable(s) && RoundStep(s, s', live, leader, upto) && DataOk(s')
    requires Noted(s, s', leader, upto)
    ensures AckedDurable(s')
  {
    hide RunResolution, AddFounders, Empties, LegsOk, EmptyOk, FoundersOk, VoidOk;
    forall e | AckedAt(s'.trk, e) ensures e in s'.route.overlay && Durable(s'.route, s'.route.overlay[e]) {
      if AckedAt(s.trk, e) {
        assert NotedAt(s, s', leader, upto, Empties(s'.reps[leader], upto), e);
        SubsetSize(s.route.overlay[e].holders, s'.route.overlay[e].holders);
      } else {
        assert !ResolvedAt(s.trk, e) && s.trk.base < e <= upto;
        RoundLeaderHolds(s, s', live, leader, upto, e);
        assert DatumOk(s', leader, e);
        assert NotedAt(s, s', leader, upto, Empties(s'.reps[leader], upto), e);
      }
    }
  }

  /** A slot the retire does not find in the verdict list is held by the leader. */
  lemma RoundLeaderHolds(s: State, s': State, live: set<nat>, leader: nat, upto: Lsn, d: Lsn)
    requires Linked(s) && DataOk(s) && RoundStep(s, s', live, leader, upto)
    requires s.trk.base < d <= upto && !ResolvedAt(s.trk, d) && d !in Empties(s'.reps[leader], upto)
    ensures HoldsAt(s'.reps[leader], d)
  {
    RoundSettles(s.reps, live, upto, s.pageSize, leader, d);
  }

  lemma RoundKeepsBooks(s: State, s': State, live: set<nat>, leader: nat, upto: Lsn)
    requires SafeInv(s) && RoundStep(s, s', live, leader, upto) && DataOk(s') && StoresStep(s, s')
    requires Noted(s, s', leader, upto) && s.trk.frontier <= s'.trk.frontier
    ensures Books(s')
  {
    hide ExclInv, Stores, RouteInv, LegsCounted, AckedDurable, RoundStep, StoresStep, Noted, DataOk;
    ExclWf(s);
    RoundStepParts(s, s', live, leader, upto);
    RoundCounts(s, s', leader, upto);
    RoundDurable(s, s', live, leader, upto);
    RoundMarks(s, s', leader, upto);
  }

  lemma ExclWf(s: State)
    requires ExclInv(s)
    ensures Wf(s)
  {
  }

  lemma RoundStepParts(s: State, s': State, live: set<nat>, leader: nat, upto: Lsn)
    requires Wf(s) && RoundStep(s, s', live, leader, upto)
    ensures |s'.reps| == |s.reps| && s'.legs == s.legs && leader < |s'.reps|
  {
  }

  lemma RoundMarks(s: State, s': State, leader: nat, upto: Lsn)
    requires MarksOk(s) && StoresStep(s, s') && leader < |s'.reps| && Noted(s, s', leader, upto)
    requires s.trk.frontier <= s'.trk.frontier
    ensures MarksOk(s')
  {
    hide RepInv, EntryOk, NotedAt, Empties;
  }

  lemma RoundKeepsRoute(s: State, s': State, live: set<nat>, leader: nat, upto: Lsn)
    requires SafeInv(s) && RoundStep(s, s', live, leader, upto) && Held(s) <= Held(s')
    requires s'.route == NoteAll(s.route, s.trk, s.trk.frontier + 1, upto, Empties(s'.reps[leader], upto), leader)
    ensures RouteInv(s'.route, Held(s'))
  {
    hide RunResolution, AddFounders, RetiredOutcome, RouteInv, NoteAll, LegsOk, EmptyOk, FoundersOk, VoidOk, AckedOk;
    var empties := Empties(s'.reps[leader], upto);
    MoreHoldings(s.route, Held(s), Held(s'));
    forall d | s.trk.frontier + 1 <= d <= upto && FilledAt(s.trk, empties, d) && d in s.route.overlay
      ensures (d, leader) in Held(s')
    {
      RoundLeaderHolds(s, s', live, leader, upto, d);
    }
    NoteAllAgrees(s.route, Held(s'), s.trk, s.trk.frontier + 1, upto, empties, leader);
  }

  lemma RoundEffectsSafe(s: State, s': State, live: set<nat>, leader: nat, upto: Lsn)
    requires SafeInv(s) && Enabled(s, Round(live, leader, upto)) && FullRound(s, live, upto)
    requires RoundEffects(s, s', live, leader, upto) && DataOk(s')
    ensures Stores(s') && Books(s') && RouteInv(s'.route, Held(s'))
  {
    RoundKeepsStores(s, s', live, leader, upto);
    RoundKeepsBooks(s, s', live, leader, upto);
    RoundKeepsRoute(s, s', live, leader, upto);
  }

  /** All that a round does to the state. */
  ghost predicate RoundEffects(s: State, s': State, live: set<nat>, leader: nat, upto: Lsn)
    requires Wf(s)
  {
    && RoundStep(s, s', live, leader, upto) && s'.base == s.base && s'.anchor == s.anchor
    && Noted(s, s', leader, upto) && s.trk.frontier <= s'.trk.frontier
    && s'.route == NoteAll(s.route, s.trk, s.trk.frontier + 1, upto, Empties(s'.reps[leader], upto), leader)
  }

  lemma RoundHasEffects(s: State, live: set<nat>, leader: nat, upto: Lsn)
    requires Linked(s) && Enabled(s, Round(live, leader, upto))
    ensures RoundEffects(s, NextRound(s, live, leader, upto), live, leader, upto)
  {
    RoundIsStep(s, live, leader, upto);
    ReplyNotes(s, RunResolution(s.reps, live, upto, s.pageSize), AddFounders(s, live, upto), leader, upto);
  }

  // ---------------------------------------------------------------- whole runs

  lemma StepKeepsSafe(s: State, step: Step)
    requires SafeInv(s) && Enabled(s, step) && SafeStep(s, step)
    ensures SafeInv(Next(s, step)) && Later(s, Next(s, step))
  {
    StepKeepsExcl(s, step);
    StepLater(s, step);
    if OnClient(step) {
      ClientKeepsSafe(s, step);
    } else if step.Deliver? {
      DeliverKeepsSafe(s, step.d, step.i, step.c);
    } else if step.Ping? {
      PingKeepsSafe(s, step.i, step.c);
    } else {
      RoundHasEffects(s, step.live, step.leader, step.upto);
      RoundEffectsSafe(s, Next(s, step), step.live, step.leader, step.upto);
    }
  }

  lemma FreshSafe(s: State)
    requires FreshLogin(s)
    ensures SafeInv(s)
  {
    FreshExcl(s);
    ResetAgrees(|s.reps|, s.trk.base, Held(s));
    forall i, d | 0 <= i < |s.reps| && d in s.reps[i].journal ensures EntryOk(s, i, d) {
      assert FreshMember(s, s.reps[i]);
    }
    forall i | 0 <= i < |s.reps| ensures RepInv(s.reps[i]) { assert FreshMember(s, s.reps[i]); }
  }

  lemma {:induction false} RunKeepsSafe(s: State, steps: seq<Step>, s': State)
    requires SafeInv(s) && SafeRun(s, steps, s')
    ensures SafeInv(s') && Later(s, s')
    decreases |steps|
  {
    if steps == [] {
      LaterReflexive(s);
    } else {
      var m := Next(s, steps[0]);
      StepKeepsSafe(s, steps[0]);
      RunKeepsSafe(m, steps[1..], s');
      LaterTransitive(s, m, s');
    }
  }
}
