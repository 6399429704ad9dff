/** What the client is told about a leg is something the replica's side of the session made true. */
module LegResults {
  import opened CraftTypes
  import opened Replica
  import opened Protocol
  import opened Exclusion
  import opened ExclusionRound
  import opened Runs
  import opened ClientVerbs

  /** The replica's own answer to the leg `d` when it arrives in `s`. */
  function AnswerOf(s: State, d: Lsn, i: nat, c: Lsn): (answer: Result<LsnPair, CraftError>)
    requires i < |s.reps| && d in s.writes && s.reps[i].pageSize > 0 && JournalOk(s.reps[i].pageSize, s.reps[i].journal)
  {
    DoWrite(s.reps[i], Hdr(s.term, c), d, s.writes[d].addr, s.writes[d].len, s.writes[d].data).1
  }

  lemma Held(s: State)
    requires ExclInv(s)
    ensures Wf(s) && Linked(s)
  {
  }

  lemma Delivered(s: State, d: Lsn, i: nat, c: Lsn)
    requires Linked(s) && Enabled(s, Deliver(d, i, c))
    ensures var s' := Next(s, Deliver(d, i, c));
      IsLeg(s', d, i) && s'.legs[d][i].arrived == ArrivalOf(AnswerOf(s, d, i, c))
  {
  }

  lemma Dropped(s: State, d: Lsn, i: nat)
    requires Wf(s) && Enabled(s, Drop(d, i))
    ensures var s' := Next(s, Drop(d, i)); IsLeg(s', d, i) && s'.legs[d][i].arrived == Arrival.Dropped
  {
  }

  /** Where a leg has got to by a step it stays, however the session goes on. */
  lemma ArrivalStays(s: State, step: Step, steps: seq<Step>, s': State, d: Lsn, i: nat)
    requires ExclInv(s) && FloorOk(s.route) && Enabled(s, step) && Run(Next(s, step), steps, s')
    requires IsLeg(Next(s, step), d, i) && Next(s, step).legs[d][i].arrived != NotYet
    ensures IsLeg(s', d, i) && s'.legs[d][i].arrived == Next(s, step).legs[d][i].arrived
  {
    hide ExclInv, Linked, Wf, FloorOk, Run, Enabled, Next, TrackerLater, RepsLater, RouteLater;
    Held(s);
    var s1 := Next(s, step);
    StepKeepsExcl(s, step);
    StepLater(s, step);
    RunKeepsExcl(s1, steps, s');
    assert LegsLater(s1.legs[d], s'.legs[d]);
  }

  /** A leg the client still waits for may always run into its deadline, arrived or not. */
  lemma TimeoutReported(s: State, d: Lsn, i: nat)
    requires LegReported(s, d, i, Waiting)
    ensures Enabled(s, Complete(d, i, ReportOf(Err(TimedOut))))
  {
  }

  /**
   * A leg that was delivered: whatever happened since, the replica's answer or a timeout
   * is a report the session allows, and an answer it gives is acked exactly when it is Ok.
   */
  lemma AnswerReported(s: State, d: Lsn, i: nat, c: Lsn, steps: seq<Step>, s': State,
                       result: Result<LsnPair, CraftError>)
    requires ExclInv(s) && FloorOk(s.route) && Enabled(s, Deliver(d, i, c))
    requires Run(Next(s, Deliver(d, i, c)), steps, s') && LegReported(s', d, i, Waiting)
    requires result in {AnswerOf(s, d, i, c), Err(TimedOut)}
    ensures Enabled(s', Complete(d, i, ReportOf(result)))
    ensures ReportOf(AnswerOf(s, d, i, c)) == LegAcked <==> s'.legs[d][i].arrived == Accepted
  {
    hide ExclInv, Linked, Wf, FloorOk, Run, Next, DoWrite;
    Held(s);
    Delivered(s, d, i, c);
    ArrivalStays(s, Deliver(d, i, c), steps, s', d, i);
  }

  /** A leg that was never delivered is reported as REPLICA_DOWN or as a timeout. */
  lemma DropReported(s: State, d: Lsn, i: nat, steps: seq<Step>, s': State, result: Result<LsnPair, CraftError>)
    requires ExclInv(s) && FloorOk(s.route) && Enabled(s, Drop(d, i))
    requires Run(Next(s, Drop(d, i)), steps, s') && LegReported(s', d, i, Waiting)
    requires result in {Err(ReplicaDown), Err(TimedOut)}
    ensures Enabled(s', Complete(d, i, ReportOf(result)))
  {
    hide ExclInv, Linked, Wf, FloorOk, Run, Next;
    Held(s);
    Dropped(s, d, i);
    ArrivalStays(s, Drop(d, i), steps, s', d, i);
  }

  /**
   * An Ok answer carries the watermarks the replica is left with, and reporting its
   * commit to the router stays allowed for the rest of the session.
   */
  lemma AnswerHeard(s: State, d: Lsn, i: nat, c: Lsn, steps: seq<Step>, s': State)
    requires ExclInv(s) && FloorOk(s.route) && Enabled(s, Deliver(d, i, c))
    requires Run(Next(s, Deliver(d, i, c)), steps, s') && AnswerOf(s, d, i, c).Ok?
    ensures var (l, r) := (AnswerOf(s, d, i, c).value, Next(s, Deliver(d, i, c)).reps[i]);
      && l == LsnPair(r.commit, r.lastAppend)
      && (s'.route.flight.None? ==> Enabled(s', Heard(i, l.commitLsn)))
  {
    StepKeepsExcl(s, Deliver(d, i, c));
    StepLater(s, Deliver(d, i, c));
    StaysHeard(Next(s, Deliver(d, i, c)), steps, s', i);
  }

  /** The same for a keep_alive and for the reply of a read. */
  lemma PingHeard(s: State, i: nat, c: Lsn, steps: seq<Step>, s': State)
    requires ExclInv(s) && FloorOk(s.route) && Enabled(s, Ping(i, c)) && Run(Next(s, Ping(i, c)), steps, s')
    ensures var (r, result) := DoKeepAlive(s.reps[i], Hdr(s.term, c));
      && r == Next(s, Ping(i, c)).reps[i] && result == Ok(LsnPair(r.commit, r.lastAppend))
      && (s'.route.flight.None? ==> Enabled(s', Heard(i, result.value.commitLsn)))
  {
    StepKeepsExcl(s, Ping(i, c));
    StepLater(s, Ping(i, c));
    StaysHeard(Next(s, Ping(i, c)), steps, s', i);
  }

  lemma StaysHeard(s: State, steps: seq<Step>, s': State, i: nat)
    requires ExclInv(s) && FloorOk(s.route) && Run(s, steps, s') && i < |s.reps|
    ensures s'.route.flight.None? ==> Enabled(s', Heard(i, s.reps[i].commit))
  {
    RunKeepsExcl(s, steps, s');
    assert RepLater(s.reps[i], s'.reps[i]);
  }
}
