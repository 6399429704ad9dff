/** The watermark sandwich: reclaim floor, reported and real committed prefixes, client frontier. */
module Watermarks {
  import opened CraftTypes
  import opened Replica
  import opened Tracker
  import opened Router
  import opened Cluster
  import opened Protocol
  import opened Exclusion
  import opened ExclusionSteps
  import opened ExclusionRound
  import opened Runs

  /** all_committed <= synced[i] <= commit_lsn of replica i: what the reclaim floor relies on. */
  ghost predicate Reported(s: State) {
    && FloorOk(s.route) && |s.route.synced| == |s.reps|
    && forall i :: 0 <= i < |s.reps| ==> s.route.synced[i] <= s.reps[i].commit
  }

  /** No replica has committed past the client's frontier. */
  ghost predicate HeldBack(s: State) {
    forall i :: 0 <= i < |s.reps| ==> s.reps[i].commit <= s.trk.frontier
  }

  /** A dLSN up to `upto` was counted by reserve() and its slot is not visible yet. */
  ghost predicate Straddles(t: Trk, upto: Lsn) {
    exists d :: d <= upto && UncreatedAt(t, d)
  }

  lemma StepKeepsReported(s: State, step: Step)
    requires Linked(s) && Reported(s) && Enabled(s, step)
    ensures Reported(Next(s, step)) && Later(s, Next(s, step))
  {
    StepLater(s, step);
    var s' := Next(s, step);
    forall i | 0 <= i < |s'.reps| ensures s'.route.synced[i] <= s'.reps[i].commit {
      assert RepLater(s.reps[i], s'.reps[i]);
      SyncedOnlyFromReports(s, step, i);
    }
  }

  lemma SyncedOnlyFromReports(s: State, step: Step, i: nat)
    requires Linked(s) && Enabled(s, step) && i < |s.reps|
    ensures |Next(s, step).route.synced| == |s.reps|
    ensures var c := Next(s, step).route.synced[i]; c == s.route.synced[i] || c <= s.reps[i].commit
  {
    if step.Complete? {
      CompletionKeys(s.route, step.d, step.i, step.report == LegAcked);
    } else if step.Round? {
      ReplySynced(s, RunResolution(s.reps, step.live, step.upto, s.pageSize),
                  AddFounders(s, step.live, step.upto), step.leader, step.upto);
    }
  }

  lemma ReplySynced(s: State, reps: seq<Rep>, founders: map<Lsn, set<nat>>, leader: nat, upto: Lsn)
    requires leader < |reps|
    ensures ApplyReply(s, reps, founders, leader, upto).route.synced == s.route.synced
  {
    NoteAllSynced(s.route, s.trk, s.trk.frontier + 1, Min(upto, s.trk.next - 1), Empties(reps[leader], upto), leader);
  }

  lemma {:induction false} NoteAllSynced(r: Route, t: Trk, lo: Lsn, hi: Lsn, empties: set<Lsn>, leader: nat)
    ensures NoteAll(r, t, lo, hi, empties, leader).synced == r.synced
    decreases hi - lo + 1
  {
    if lo <= hi { NoteAllSynced(NoteOne(r, t, lo, empties, leader), t, lo + 1, hi, empties, leader); }
  }

  /** Outside a round nothing pushes a replica past the frontier. */
  lemma StepKeepsHeldBack(s: State, step: Step)
    requires Linked(s) && HeldBack(s) && Enabled(s, step) && !step.Round?
    ensures HeldBack(Next(s, step))
  {
    TrackerStepLater(s, step);
    if step.Deliver? { DeliverEffect(s, step.d, step.i, step.c); }
  }

  /** After a round every replica is still at or behind the frontier exactly when it straddled no uncreated dLSN. */
  lemma RoundKeepsHeldBack(s: State, live: set<nat>, leader: nat, upto: Lsn)
    requires Linked(s) && HeldBack(s) && Enabled(s, Round(live, leader, upto))
    ensures HeldBack(Next(s, Round(live, leader, upto))) <==> !Straddles(s.trk, upto)
  {
    var reps := RunResolution(s.reps, live, upto, s.pageSize);
    RoundCommits(s.reps, live, upto, s.pageSize, leader);
    forall i | 0 <= i < |s.reps| ensures reps[i].commit <= Max(s.reps[i].commit, upto) {
      RoundAt(s.reps, live, upto, s.pageSize, i, 0);
    }
    ReplyHeldBack(s, reps, AddFounders(s, live, upto), leader, upto);
  }

  lemma ReplyHeldBack(s: State, reps: seq<Rep>, founders: map<Lsn, set<nat>>, leader: nat, upto: Lsn)
    requires TrkInv(s.trk) && HeldBack(s) && leader < |reps| == |s.reps| && upto < s.trk.next
    requires reps[leader].commit >= upto
    requires forall i :: 0 <= i < |reps| ==> reps[i].commit <= Max(s.reps[i].commit, upto)
    ensures HeldBack(ApplyReply(s, reps, founders, leader, upto)) <==> !Straddles(s.trk, upto)
  {
    var empties := Empties(reps[leader], upto);
    RetireReaches(s.trk, upto, empties);
    RetireKeeps(s.trk, s.trk.frontier + 1, upto, empties);
  }

  // ---------------------------------------------------------------- whole runs

  /** Along the run, no round straddles a counted dLSN whose slot is not visible yet. */
  ghost predicate Unstraddled(s: State, steps: seq<Step>)
    decreases |steps|
  {
    steps != [] && Wf(s) && Enabled(s, steps[0]) ==>
      (steps[0].Round? ==> !Straddles(s.trk, steps[0].upto)) && Unstraddled(Next(s, steps[0]), steps[1..])
  }

  lemma {:induction false} RunKeepsSandwich(s: State, steps: seq<Step>, s': State)
    requires ExclInv(s) && Reported(s) && Run(s, steps, s')
    ensures ExclInv(s') && Reported(s') && Later(s, s')
    ensures HeldBack(s) && Unstraddled(s, steps) ==> HeldBack(s')
    decreases |steps|
  {
    if steps == [] {
      LaterReflexive(s);
    } else {
      var m := Next(s, steps[0]);
      StepKeepsExcl(s, steps[0]);
      StepKeepsReported(s, steps[0]);
      if HeldBack(s) && Unstraddled(s, steps) {
        if steps[0].Round? {
          RoundKeepsHeldBack(s, steps[0].live, steps[0].leader, steps[0].upto);
        } else {
          StepKeepsHeldBack(s, steps[0]);
        }
      }
      RunKeepsSandwich(m, steps[1..], s');
      LaterTransitive(s, m, s');
    }
  }

  /**
   * all_committed <= synced[i] <= commit_lsn of replica i in every reachable state, so
   * the reclaim floor never passes a member's applied prefix, and all of them only
   * rise. commit_lsn <= F holds as well as long as no round straddles an uncreated dLSN.
   */
  lemma Sandwich(s0: State, a: seq<Step>, s1: State, b: seq<Step>, s2: State, i: nat)
    requires FreshLogin(s0) && Run(s0, a, s1) && Run(s1, b, s2) && i < |s0.reps|
    ensures |s1.reps| == |s2.reps| == |s1.route.synced| == |s2.route.synced| == |s0.reps|
    ensures s2.route.allCommitted <= s2.route.synced[i] <= s2.reps[i].commit
    ensures s1.route.allCommitted <= s2.route.allCommitted && s1.route.synced[i] <= s2.route.synced[i]
    ensures s1.reps[i].commit <= s2.reps[i].commit && s1.trk.frontier <= s2.trk.frontier
    ensures Unstraddled(s0, a) && Unstraddled(s1, b) ==> s2.reps[i].commit <= s2.trk.frontier
  {
    FreshExcl(s0);
    forall k | 0 <= k < |s0.reps| ensures -1 <= s0.reps[k].commit <= s0.trk.frontier {
      assert FreshMember(s0, s0.reps[k]);
    }
    hide ExclInv, Run, FreshMember, Unstraddled;
    RunKeepsSandwich(s0, a, s1);
    RunKeepsSandwich(s1, b, s2);
    assert RepLater(s1.reps[i], s2.reps[i]);
  }

  lemma {:induction false} RunOneMore(s: State, steps: seq<Step>, m: State, step: Step)
    requires Run(s, steps, m) && Wf(m) && Enabled(m, step)
    ensures Run(s, steps + [step], Next(m, step))
    decreases |steps|
  {
    if steps == [] {
      assert steps + [step] == [step];
    } else {
      assert (steps + [step])[1..] == steps[1..] + [step];
      RunOneMore(Next(s, steps[0]), steps[1..], m, step);
    }
  }

  /** One step further along a run that keeps the replicas behind the frontier. */
  lemma Further(s0: State, steps: seq<Step>, s: State, step: Step)
    requires Run(s0, steps, s) && ExclInv(s) && HeldBack(s) && Enabled(s, step) && !step.Round?
    ensures Run(s0, steps + [step], Next(s, step)) && ExclInv(Next(s, step)) && HeldBack(Next(s, step))
  {
    RunOneMore(s0, steps, s, step);
    StepKeepsExcl(s, step);
    StepKeepsHeldBack(s, step);
  }

  /**
   * commit_lsn <= F does fail: one write has taken dLSN L+1 and not published its slot
   * when a later write fails and is resolved. The round commits through L+2 while the
   * retire cannot see L+1, so F stays at L.
   */
  lemma FrontierOvertaken(s0: State, w: Write) returns (steps: seq<Step>, s: State)
    requires FreshLogin(s0) && |s0.reps| == 1
    requires Aligned(s0.pageSize, w.addr, w.len) && w.data.None?
    ensures Run(s0, steps, s) && !HeldBack(s)
  {
    var d := s0.trk.base + 2;
    FreshExcl(s0);
    assert FreshMember(s0, s0.reps[0]);
    Further(s0, [], s0, Count);
    var s1 := Next(s0, Count);
    Further(s0, [Count], s1, Count);
    var s2 := Next(s1, Count);
    var a := [Count] + [Count];
    Further(s0, a, s2, Publish(d, w));
    var s3 := Next(s2, Publish(d, w));
    s := WriteFails(s0, a + [Publish(d, w)], s3, d);
    steps := a + [Publish(d, w)] + [Send(d)] + [Complete(d, 0, LegTimedOut)] + [Conclude(d)];
    RoundKeepsHeldBack(s, {0}, 0, d);
    RunOneMore(s0, steps, s, Round({0}, 0, d));
    steps := steps + [Round({0}, 0, d)];
    s := Next(s, Round({0}, 0, d));
  }

  lemma WriteFails(s0: State, steps: seq<Step>, s: State, d: Lsn) returns (s': State)
    requires Run(s0, steps, s) && ExclInv(s) && HeldBack(s) && |s.reps| == 1
    requires d in s.trk.slots && d !in s.route.overlay && UncreatedAt(s.trk, d - 1)
    ensures Run(s0, steps + [Send(d)] + [Complete(d, 0, LegTimedOut)] + [Conclude(d)], s')
    ensures ExclInv(s') && HeldBack(s') && UncreatedAt(s'.trk, d - 1) && Enabled(s', Round({0}, 0, d))
  {
    var m := LegTimesOut(s0, steps, s, d);
    Further(s0, steps + [Send(d)] + [Complete(d, 0, LegTimedOut)], m, Conclude(d));
    s' := Next(m, Conclude(d));
    ResolveExact(m.trk, d, Classify(m, d));
  }

  lemma LegTimesOut(s0: State, steps: seq<Step>, s: State, d: Lsn) returns (s': State)
    requires Run(s0, steps, s) && ExclInv(s) && HeldBack(s) && |s.reps| == 1
    requires d in s.trk.slots && d !in s.route.overlay
    ensures Run(s0, steps + [Send(d)] + [Complete(d, 0, LegTimedOut)], s') && ExclInv(s') && HeldBack(s')
    ensures s'.trk == s.trk && |s'.reps| == 1 && Enabled(s', Conclude(d))
  {
    Further(s0, steps, s, Send(d));
    var m := NextSend(s, d);
    assert m.legs[d][0] == Leg(NotYet, Waiting);
    Further(s0, steps + [Send(d)], m, Complete(d, 0, LegTimedOut));
    s' := NextComplete(m, d, 0, LegTimedOut);
    LoneLegReported(m, d);
  }

  lemma LoneLegReported(s: State, d: Lsn)
    requires Wf(s) && IsLeg(s, d, 0) && |s.reps| == 1
    ensures var s' := NextComplete(s, d, 0, LegTimedOut);
      s'.trk == s.trk && s'.reps == s.reps && d in s'.route.overlay && AllReported(s', d)
  {
  }
}
