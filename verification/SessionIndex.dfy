/** Every run of a session is a run of the routing index against who really holds what. */
module SessionIndex {
  import opened CraftTypes
  import opened Replica
  import opened Tracker
  import opened Router
  import opened RouterRuns
  import opened Cluster
  import opened Protocol
  import opened Exclusion
  import opened ExclusionRound
  import opened Safety
  import opened SafetySteps
  import opened SafetyRound

  /** The index of a session, with what it has to agree with. */
  ghost function IndexOf(s: State): View {
    View(s.route, Held(s))
  }

  lemma Once(v: View, op: Op)
    requires Allowed(v, op)
    ensures Leads(v, Do(v, op))
  {
    DoneOne(v, op);
  }

  /** Members may come to hold any writes. */
  lemma {:induction false} Gathers(r: Route, held: Holdings, held': Holdings)
    requires held <= held'
    ensures Leads(View(r, held), View(r, held'))
    decreases held' - held
  {
    if held' <= held {
      assert held == held';
      Stays(View(r, held));
    } else {
      var x :| x in held' && x !in held;
      Once(View(r, held), Acquire(x.0, x.1));
      Gathers(r, held + {x}, held');
      LeadsThen(View(r, held), View(r, held + {x}), View(r, held'));
    }
  }

  /** The on_filled callbacks of one retire are fills, one after the other. */
  lemma {:induction false} Fills(r: Route, held: Holdings, t: Trk, lo: Lsn, hi: Lsn, empties: set<Lsn>, leader: nat)
    requires AboveFolds(r, lo) && leader < r.n
    requires forall d :: lo <= d <= hi && FilledAt(t, empties, d) && d in r.overlay ==> (d, leader) in held
    ensures Leads(View(r, held), View(NoteAll(r, t, lo, hi, empties, leader), held))
    decreases hi - lo + 1
  {
    var v := View(r, held);
    Stays(v);
    if lo <= hi {
      var r1 := NoteOne(r, t, lo, empties, leader);
      if FilledAt(t, empties, lo) && lo in r.overlay { Once(v, Fill(lo, leader)); }
      assert Leads(v, View(r1, held));
      Fills(r1, held, t, lo + 1, hi, empties, leader);
      LeadsThen(v, View(r1, held), View(NoteAll(r, t, lo, hi, empties, leader), held));
    }
  }

  lemma SendIsOpen(s: State, d: Lsn)
    requires SafeInv(s) && Enabled(s, Send(d))
    ensures Leads(IndexOf(s), View(NextSend(s, d).route, Held(s)))
  {
    assert s.route.login < d;
    hide SafeInv, Held;
    Once(IndexOf(s), Open(d, s.trk.slots[d].addr, s.trk.slots[d].len));
  }

  lemma CompleteIsLeg(s: State, d: Lsn, i: nat, report: Report)
    requires SafeInv(s) && Enabled(s, Step.Complete(d, i, report))
    ensures Leads(IndexOf(s), View(RecordCompletion(s.route, d, i, report == LegAcked), Held(s)))
  {
    assert Counted(s, d) && i < s.route.n && i !in s.route.overlay[d].completed;
    if report == LegAcked { AcceptedHolds(s, d, i); }
    assert report == LegAcked ==> (d, i) in Held(s);
    hide SafeInv, RecordCompletion;
    Once(IndexOf(s), Op.Complete(d, i, report == LegAcked));
  }

  lemma HeardIsReport(s: State, i: nat, c: Lsn)
    requires SafeInv(s) && Enabled(s, Heard(i, c))
    ensures Leads(IndexOf(s), View(AdvanceSynced(s.route, i, c), Held(s)))
  {
    CommitCertifiesAll(s, i, c);
    assert i < s.route.n && i < |s.route.synced| && i < |s.route.miss|;
    hide SafeInv, AdvanceSynced, Durable, Held;
    Once(IndexOf(s), Op.Report(i, c));
  }

  lemma ClientIsIndexRun(s: State, step: Step)
    requires SafeInv(s) && Enabled(s, step) && OnClient(step)
    ensures Leads(IndexOf(s), View(Next(s, step).route, Held(s)))
  {
    hide SafeInv, Leads, NoteAll, RecordCompletion, AdvanceSynced, FoldNext, CanFold;
    match step
    case Send(d) => SendIsOpen(s, d);
    case Complete(d, i, report) => CompleteIsLeg(s, d, i, report);
    case Fold(m) => Once(IndexOf(s), Op.Fold(m));
    case Heard(i, c) => HeardIsReport(s, i, c);
    case _ => Stays(IndexOf(s));
  }

  lemma RoundIsIndexRun(s: State, live: set<nat>, leader: nat, upto: Lsn)
    requires SafeInv(s) && Enabled(s, Round(live, leader, upto)) && FullRound(s, live, upto)
    ensures Leads(IndexOf(s), IndexOf(NextRound(s, live, leader, upto)))
  {
    hide SafeInv, NextRound, RoundStep, Leads, NoteAll, Empties, Held, AboveFolds, FullRound, RoundEffects, Stores;
    RoundReady(s, live, leader, upto);
    var s' := NextRound(s, live, leader, upto);
    RoundGathers(s, s', live, leader, upto);
    Gathers(s.route, Held(s), Held(s'));
    Fills(s.route, Held(s'), s.trk, s.trk.frontier + 1, upto, Empties(s'.reps[leader], upto), leader);
    LeadsThen(IndexOf(s), View(s.route, Held(s')), IndexOf(s'));
  }

  lemma RoundReady(s: State, live: set<nat>, leader: nat, upto: Lsn)
    requires SafeInv(s) && Enabled(s, Round(live, leader, upto))
    ensures Wf(s) && leader < |s.reps|
  {
  }

  /** What the index sees of a round. */
  lemma RoundGathers(s: State, s': State, live: set<nat>, leader: nat, upto: Lsn)
    requires SafeInv(s) && Enabled(s, Round(live, leader, upto)) && FullRound(s, live, upto)
    requires s' == NextRound(s, live, leader, upto)
    ensures Held(s) <= Held(s') && leader < |s'.reps| && leader < s.route.n && AboveFolds(s.route, s.trk.frontier + 1)
    ensures s'.route == NoteAll(s.route, s.trk, s.trk.frontier + 1, upto, Empties(s'.reps[leader], upto), leader)
    ensures forall d :: s.trk.frontier + 1 <= d <= upto && FilledAt(s.trk, Empties(s'.reps[leader], upto), d) ==>
      (d, leader) in Held(s')
  {
    hide NextRound, NoteAll, Empties, RunResolution, AddFounders, RetiredOutcome, Held;
    RoundHasEffects(s, live, leader, upto);
    RoundKeepsStores(s, s', live, leader, upto);
    RoundFillsHeld(s, s', live, leader, upto);
  }

  lemma RoundFillsHeld(s: State, s': State, live: set<nat>, leader: nat, upto: Lsn)
    requires SafeInv(s) && RoundStep(s, s', live, leader, upto)
    ensures forall d :: s.trk.frontier + 1 <= d <= upto && FilledAt(s.trk, Empties(s'.reps[leader], upto), d) ==>
      (d, leader) in Held(s')
  {
    hide RunResolution, AddFounders, RetiredOutcome, RouteInv, LegsOk, EmptyOk, FoundersOk, VoidOk, AckedOk;
    forall d | s.trk.frontier + 1 <= d <= upto && FilledAt(s.trk, Empties(s'.reps[leader], upto), d)
      ensures (d, leader) in Held(s')
    {
      RoundLeaderHolds(s, s', live, leader, upto, d);
    }
  }

  lemma StepIsIndexRun(s: State, step: Step)
    requires SafeInv(s) && Enabled(s, step) && SafeStep(s, step)
    ensures Leads(IndexOf(s), IndexOf(Next(s, step)))
  {
    if OnClient(step) {
      ClientIsIndexRun(s, step);
      ClientKeepsStores(s, step);
    } else if step.Deliver? {
      DeliverIsOne(s, step.d, step.i, step.c);
      OneReplicaKeepsStores(s, Next(s, step), step.i);
      Gathers(s.route, Held(s), Held(Next(s, step)));
    } else if step.Ping? {
      PingIsOne(s, step.i, step.c);
      OneReplicaKeepsStores(s, Next(s, step), step.i);
      Gathers(s.route, Held(s), Held(Next(s, step)));
    } else {
      RoundIsIndexRun(s, step.live, step.leader, step.upto);
    }
  }

  lemma PingIsOne(s: State, i: nat, c: Lsn)
    requires SafeInv(s) && Enabled(s, Ping(i, c))
    ensures OneReplica(s, Next(s, Ping(i, c)), i)
  {
    ApplyKeepsInv(s.reps[i], c);
  }

  /**
   * What the session machine does to the router, with who holds what, is a run of the
   * routing index: every leg completes once and is acked by a holder, every fill is above
   * the folds, every report certifies what it covers.
   */
  lemma {:induction false} RunIsIndexRun(s: State, steps: seq<Step>, s': State)
    requires SafeInv(s) && SafeRun(s, steps, s')
    ensures Leads(IndexOf(s), IndexOf(s'))
    decreases |steps|
  {
    if steps == [] {
      Stays(IndexOf(s));
    } else {
      var m := Next(s, steps[0]);
      StepIsIndexRun(s, steps[0]);
      StepKeepsSafe(s, steps[0]);
      hide SafeInv, Leads;
      RunIsIndexRun(m, steps[1..], s');
      LeadsThen(IndexOf(s), IndexOf(m), IndexOf(s'));
    }
  }
}
