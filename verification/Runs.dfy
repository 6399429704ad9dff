/** Runs of the session machine, and what only ever grows along them. */
module Runs {
  import opened CraftTypes
  import opened Replica
  import opened Tracker
  import opened Router
  import opened Cluster
  import opened Protocol
  import opened Exclusion
  import opened ExclusionSteps
  import opened ExclusionRound

  /**
   * The state right after a login at dLSN `L`, before the admission probes report:
   * nothing of this session is in flight, every member took part in the login (same
   * term, no tail above `L`), members agree wherever they hold something, and the
   * anchor holds everything up to `L`.
   */
  ghost predicate FreshLogin(s: State) {
    && s.pageSize > 0 && |s.reps| > 0 && s.anchor < |s.reps|
    && -1 <= s.trk.base
    && s.trk == ResetAt(s.trk.base) && s.route == Reset(|s.reps|, s.trk.base)
    && s.writes == map[] && s.legs == map[] && s.founders == map[]
    && (forall i :: 0 <= i < |s.reps| ==> FreshMember(s, s.reps[i]))
    && s.reps[s.anchor].commit == s.trk.base
  }

  ghost predicate FreshMember(s: State, r: Rep) {
    && RepInv(r) && r.pageSize == s.pageSize && r.term == s.term && r.commit <= s.trk.base
    && (forall d :: d in r.journal ==> 0 <= d <= s.trk.base && d in s.base && r.journal[d] == s.base[d])
  }

  /** A login to a volume on which every member holds `content` up to dLSN `login` and nothing above it. */
  ghost function AgreedLogin(n: nat, pageSize: nat, term: nat, content: Journal, login: Lsn): (s: State)
    requires n > 0 && pageSize > 0 && -1 <= login && JournalOk(pageSize, content)
    requires forall d :: d in content <==> 0 <= d <= login
    ensures FreshLogin(s) && |s.reps| == n && s.pageSize == pageSize && s.term == term && s.trk.base == login
  {
    State(pageSize, term, content, 0, ResetAt(login), Reset(n, login),
          seq(n, _ => Rep(pageSize, content, Replay(pageSize, content, login), login, login, term, 0)),
          map[], map[], map[])
  }

  /** `s'` is reached from `s` by the given steps. */
  ghost predicate Run(s: State, steps: seq<Step>, s': State)
    decreases |steps|
  {
    if steps == [] then s' == s
    else Wf(s) && Enabled(s, steps[0]) && Run(Next(s, steps[0]), steps[1..], s')
  }

  // ---------------------------------------------------------------- what a run never takes back

  ghost predicate TrackerLater(t: Trk, t': Trk) {
    && t'.base == t.base && t.next <= t'.next && t.frontier <= t'.frontier && t.highestAcked <= t'.highestAcked
    && (forall d :: d in t.slots ==> d in t'.slots && EntryLater(t.slots[d], t'.slots[d]))
  }

  ghost predicate EntryLater(e: Entry, e': Entry) {
    e'.addr == e.addr && e'.len == e.len && (IsResolved(e.outcome) ==> e' == e)
  }

  ghost predicate RepLater(r: Rep, r': Rep) {
    r.commit <= r'.commit && forall d :: d in r.journal ==> d in r'.journal
  }

  ghost predicate RepsLater(a: seq<Rep>, b: seq<Rep>) {
    |b| == |a| && forall i :: 0 <= i < |a| ==> RepLater(a[i], b[i])
  }

  ghost predicate LegsLater(ls: seq<Leg>, ls': seq<Leg>) {
    && |ls'| == |ls| && (forall i :: 0 <= i < |ls| && ls[i].report != Waiting ==> ls'[i].report == ls[i].report)
    && (forall i :: 0 <= i < |ls| && ls[i].arrived != NotYet ==> ls'[i].arrived == ls[i].arrived)
  }

  ghost predicate RouteLater(r: Route, r': Route) {
    && RouteGrows(r, r') && r.allCommitted <= r'.allCommitted
    && |r'.synced| == |r.synced| && forall i :: 0 <= i < |r.synced| ==> r.synced[i] <= r'.synced[i]
  }

  ghost predicate RecordLater(s: State, s': State) {
    && s'.pageSize == s.pageSize && s'.term == s.term && s'.base == s.base && s'.anchor == s.anchor
    && (forall d :: d in s.writes ==> d in s'.writes && s'.writes[d] == s.writes[d])
    && (forall d :: d in s.legs ==> d in s'.legs && LegsLater(s.legs[d], s'.legs[d]))
    && (forall d :: d in s.founders ==> d in s'.founders)
  }

  /** Outcomes once resolved, reports once given, verdicts, journal entries and every watermark only grow. */
  ghost predicate Later(s: State, s': State) {
    RecordLater(s, s') && TrackerLater(s.trk, s'.trk) && RepsLater(s.reps, s'.reps) && RouteLater(s.route, s'.route)
  }

  /** The reclaim floor is the least watermark any member reported. */
  ghost predicate FloorOk(r: Route) {
    forall i :: 0 <= i < |r.synced| ==> r.allCommitted <= r.synced[i]
  }

  lemma LaterReflexive(s: State)
    ensures Later(s, s)
  {
  }

  lemma LaterTransitive(a: State, b: State, c: State)
    requires Later(a, b) && Later(b, c)
    ensures Later(a, c)
  {
    forall d | d in a.trk.slots ensures d in c.trk.slots && EntryLater(a.trk.slots[d], c.trk.slots[d]) {
      assert EntryLater(b.trk.slots[d], c.trk.slots[d]);
    }
    forall i | 0 <= i < |a.reps| ensures RepLater(a.reps[i], c.reps[i]) {
      assert RepLater(a.reps[i], b.reps[i]) && RepLater(b.reps[i], c.reps[i]);
    }
    forall d | d in a.legs ensures d in c.legs && LegsLater(a.legs[d], c.legs[d]) {
      assert LegsLater(b.legs[d], c.legs[d]);
    }
    forall d | d in a.route.overlay
      ensures d in c.route.overlay && SlotGrows(a.route.overlay[d], c.route.overlay[d])
    {
      assert SlotGrows(a.route.overlay[d], b.route.overlay[d]);
      assert SlotGrows(b.route.overlay[d], c.route.overlay[d]);
    }
  }

  lemma RecordStepLater(s: State, step: Step)
    requires Wf(s) && Enabled(s, step)
    ensures RecordLater(s, Next(s, step))
  {
    hide RunResolution, DoWrite, DoKeepAlive, RecordCompletion, Retire, NoteAll, Resolve, FoldNext, CanFold, Classify;
    hide AdvanceSynced, Empties, LowestSynced, Members, JournalOk;
  }

  lemma TrackerStepLater(s: State, step: Step)
    requires Linked(s) && Enabled(s, step)
    ensures TrackerLater(s.trk, Next(s, step).trk)
  {
    hide RunResolution, DoWrite, DoKeepAlive, RecordCompletion, NoteAll, Classify, AddFounders, FoldNext, AdvanceSynced;
    hide Resolve, TrkInv, JournalOk, PrefixPresent, Empties, WriteOk;
    LinkedTracker(s);
    match step
    case Conclude(d) => ResolveExact(s.trk, d, Classify(s, d));
    case Round(live, leader, upto) => RoundIsStep(s, live, leader, upto);
    case _ =>
  }

  lemma RepsStepLater(s: State, step: Step)
    requires Linked(s) && Enabled(s, step)
    ensures RepsLater(s.reps, Next(s, step).reps)
  {
    match step
    case Deliver(d, i, c) => DeliverEffect(s, d, i, c);
    case Round(live, leader, upto) =>
      var reps := RunResolution(s.reps, live, upto, s.pageSize);
      forall i | 0 <= i < |s.reps| ensures RepLater(s.reps[i], reps[i]) {
        RoundAt(s.reps, live, upto, s.pageSize, i, 0);
        forall d | d in s.reps[i].journal ensures d in reps[i].journal {
          RoundAt(s.reps, live, upto, s.pageSize, i, d);
        }
      }
    case _ =>
  }

  lemma RouteStepLater(s: State, step: Step)
    requires Wf(s) && FloorOk(s.route) && Enabled(s, step)
    ensures RouteLater(s.route, Next(s, step).route) && FloorOk(Next(s, step).route)
  {
    hide RunResolution, DoWrite, DoKeepAlive, RecordCompletion, Retire, NoteAll, Resolve, FoldNext, CanFold, Classify;
    hide AddFounders, AdvanceSynced, Empties, ApplyReply, Members;
    match step
    case Complete(d, i, report) => CompletionKeys(s.route, d, i, report == LegAcked);
    case Fold(m) => FoldMoveFrame(s.route, m);
    case Heard(i, c) => FloorRises(s.route, i, c);
    case Round(live, leader, upto) =>
      ReplyRouteLater(s, RunResolution(s.reps, live, upto, s.pageSize), AddFounders(s, live, upto), leader, upto);
    case _ =>
  }

  lemma ReplyRouteLater(s: State, reps: seq<Rep>, founders: map<Lsn, set<nat>>, leader: nat, upto: Lsn)
    requires FloorOk(s.route) && leader < |reps|
    ensures var r' := ApplyReply(s, reps, founders, leader, upto).route; RouteLater(s.route, r') && FloorOk(r')
  {
    NoteAllKeys(s.route, s.trk, s.trk.frontier + 1, Min(upto, s.trk.next - 1), Empties(reps[leader], upto), leader);
  }

  lemma FloorRises(r: Route, i: nat, c: Lsn)
    requires FloorOk(r) && i < |r.synced| && i < |r.miss|
    ensures RouteLater(r, AdvanceSynced(r, i, c)) && FloorOk(AdvanceSynced(r, i, c))
  {
    var synced := r.synced[i := c];
    if c > r.synced[i] {
      var k :| 0 <= k < |synced| && synced[k] == LowestSynced(synced);
      assert r.allCommitted <= r.synced[k] <= synced[k];
    }
  }

  lemma StepLater(s: State, step: Step)
    requires Linked(s) && FloorOk(s.route) && Enabled(s, step)
    ensures Later(s, Next(s, step)) && FloorOk(Next(s, step).route)
  {
    hide RecordLater, TrackerLater, RepsLater, RouteLater, FloorOk;
    RecordStepLater(s, step);
    TrackerStepLater(s, step);
    RepsStepLater(s, step);
    RouteStepLater(s, step);
  }

  // ---------------------------------------------------------------- whole runs

  lemma FreshExcl(s: State)
    requires FreshLogin(s)
    ensures ExclInv(s) && FloorOk(s.route)
  {
    ResetExact(s.trk.base);
    forall i | 0 <= i < |s.reps| ensures s.reps[i].term == s.term && PrefixPresent(s.reps[i]) {
      assert FreshMember(s, s.reps[i]);
    }
    assert Linked(s);
  }

  lemma {:induction false} RunKeepsExcl(s: State, steps: seq<Step>, s': State)
    requires ExclInv(s) && FloorOk(s.route) && Run(s, steps, s')
    ensures ExclInv(s') && FloorOk(s'.route) && Later(s, s')
    decreases |steps|
  {
    if steps == [] {
      LaterReflexive(s);
    } else {
      var m := Next(s, steps[0]);
      StepKeepsExcl(s, steps[0]);
      StepLater(s, steps[0]);
      RunKeepsExcl(m, steps[1..], s');
      LaterTransitive(s, m, s');
    }
  }

  lemma AckedLater(s: State, s': State, d: Lsn)
    requires Later(s, s') && EverAcked(s, d)
    ensures EverAcked(s', d)
  {
    if QuorumAcked(s, d) {
      forall i | i in Acks(s, d) ensures i in Acks(s', d) {
        assert LegReported(s, d, i, LegAcked) && LegsLater(s.legs[d], s'.legs[d]);
      }
      SubsetSize(Acks(s, d), Acks(s', d));
    } else {
      assert EntryLater(s.trk.slots[d], s'.trk.slots[d]);
    }
  }

  lemma EmptyLater(s: State, s': State, d: Lsn)
    requires Later(s, s') && EverEmpty(s, d)
    ensures EverEmpty(s', d)
  {
    if VoidAt(s.trk, d) { assert EntryLater(s.trk.slots[d], s'.trk.slots[d]); }
    if AllRejected(s, d) {
      forall i | i in Refusals(s, d) ensures i in Refusals(s', d) {
        assert LegReported(s, d, i, LegRejected) && LegsLater(s.legs[d], s'.legs[d]);
      }
      SubsetSize(Refusals(s, d), Refusals(s', d));
      SubsetSize(Refusals(s', d), Members(|s'.reps|));
    }
  }

  /**
   * Acked and Empty exclude each other over whole runs: once a dLSN was acked, by the
   * tracker or by a quorum of legs, no later state of the session ever shows it Empty,
   * and the other way round. Rounds may reach any live majority.
   */
  lemma AckedNeverEmpty(s0: State, a: seq<Step>, s1: State, b: seq<Step>, s2: State, d: Lsn)
    requires FreshLogin(s0) && Run(s0, a, s1) && Run(s1, b, s2)
    ensures EverAcked(s1, d) ==> EverAcked(s2, d) && !EverEmpty(s2, d)
    ensures EverEmpty(s1, d) ==> EverEmpty(s2, d) && !EverAcked(s2, d)
  {
    FreshExcl(s0);
    RunKeepsExcl(s0, a, s1);
    RunKeepsExcl(s1, b, s2);
    if EverAcked(s1, d) { AckedLater(s1, s2, d); }
    if EverEmpty(s1, d) { EmptyLater(s1, s2, d); }
    AckedXorEmpty(s2, d);
  }
}
