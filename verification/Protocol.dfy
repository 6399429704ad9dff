/**
 * One client session as a state machine: the client's tracker and router, the
 * replicas, and the write legs travelling between them. A fold and a routing decision
 * take one step per lock or atomic region. A completion, a watermark report (which
 * takes the fold lock) and a resolve are one step each, and so is a resolution round
 * together with the client's retire of its reply.
 */
module Protocol {
  import opened CraftTypes
  import opened Replica
  import opened Tracker
  import opened Router
  import opened Cluster

  /** A client write: a byte range and its payload (`None` for WRITE_ZEROES). */
  datatype Write = Write(addr: nat, len: nat, data: Option<seq<u8>>)

  /** What became of a leg at its replica: `Dropped` is never delivered (REPLICA_DOWN). */
  datatype Arrival = NotYet | Accepted | Refused | Dropped

  /** What the client has been told about a leg. A timed-out leg may still arrive later. */
  datatype Report = Waiting | LegAcked | LegRejected | LegTimedOut

  datatype Leg = Leg(arrived: Arrival, report: Report)

  /**
   * `base` is the content every member agrees on at or below the login dLSN and
   * `anchor` the member the admission probe found to hold all of it. `founders`
   * records, for each dLSN a round declared Empty, the live set that declared it.
   */
  datatype State = State(
    pageSize: nat,
    term: nat,
    base: Journal,
    anchor: nat,
    trk: Trk,
    route: Route,
    reps: seq<Rep>,
    writes: map<Lsn, Write>,
    legs: map<Lsn, seq<Leg>>,
    founders: map<Lsn, set<nat>>)

  datatype Step =
    | Count                                          // reserve(): take a dLSN
    | Publish(d: Lsn, w: Write)                      // reserve(): make the slot visible
    | Send(d: Lsn)                                   // create the router slot, start the legs
    | Deliver(d: Lsn, i: nat, c: Lsn)                // a leg reaches its replica, piggybacking commit `c`
    | Drop(d: Lsn, i: nat)                           // a leg is never delivered
    | Complete(d: Lsn, i: nat, report: Report)       // the client learns the leg's result
    | Conclude(d: Lsn)                               // the write classifies its legs and resolves the slot
    | Fold(m: FoldMove)                              // one atomic region of a fold
    | Ping(i: nat, c: Lsn)                           // keep_alive or read: the replica applies up to `c`
    | Heard(i: nat, c: Lsn)                          // a reply's commit_lsn reaches the router
    | Round(live: set<nat>, leader: nat, upto: Lsn)  // resolution round and retire

  /** The steps that touch nothing but the router. */
  predicate OnRouter(step: Step) {
    step.Fold? || step.Heard?
  }

  // ---------------------------------------------------------------- classification of a write's legs

  predicate IsLeg(s: State, d: Lsn, i: int) {
    d in s.legs && 0 <= i < |s.legs[d]|
  }

  predicate LegReported(s: State, d: Lsn, i: int, report: Report) {
    IsLeg(s, d, i) && s.legs[d][i].report == report
  }

  function Acks(s: State, d: Lsn): (a: set<nat>)
    ensures forall i :: i in a <==> 0 <= i < |s.reps| && LegReported(s, d, i, LegAcked)
  {
    set i | i in Members(|s.reps|) && LegReported(s, d, i, LegAcked)
  }

  function Refusals(s: State, d: Lsn): (a: set<nat>)
    ensures forall i :: i in a <==> 0 <= i < |s.reps| && LegReported(s, d, i, LegRejected)
  {
    set i | i in Members(|s.reps|) && LegReported(s, d, i, LegRejected)
  }

  predicate AllReported(s: State, d: Lsn) {
    forall i :: 0 <= i < |s.reps| ==> IsLeg(s, d, i) && s.legs[d][i].report != Waiting
  }

  predicate QuorumAcked(s: State, d: Lsn) {
    |Acks(s, d)| >= Quorum(|s.reps|)
  }

  predicate AllRejected(s: State, d: Lsn) {
    |Refusals(s, d)| == |s.reps|
  }

  /** Quorum acked; or provably held by nobody; or failed. */
  function Classify(s: State, d: Lsn): Outcome {
    if QuorumAcked(s, d) then Acked else if AllRejected(s, d) then Void else Failed
  }

  // ---------------------------------------------------------------- the round

  /** The session dLSNs a round declares Empty for the first time: nobody live has an entry. */
  predicate NewlyEmpty(s: State, live: set<nat>, upto: Lsn, d: Lsn) {
    && s.trk.base < d && ScanStart(s.reps, live) <= d <= upto
    && !AnyEmpty(s.reps, live, d) && !AnyHolder(s.reps, live, d)
  }

  function AddFounders(s: State, live: set<nat>, upto: Lsn): (f: map<Lsn, set<nat>>)
    ensures forall d :: d in f <==> d in s.founders || NewlyEmpty(s, live, upto, d)
    ensures forall d :: d in s.founders ==> f[d] == s.founders[d]
    ensures forall d :: d !in s.founders && d in f ==> f[d] == live
  {
    (map d | d in LsnRange(ScanStart(s.reps, live), upto) && NewlyEmpty(s, live, upto, d) :: live) + s.founders
  }

  /** A slot the retire finds unresolved and not in the verdict list. */
  predicate FilledAt(t: Trk, empties: set<Lsn>, d: Lsn) {
    d in t.slots && !IsResolved(t.slots[d].outcome) && d !in empties
  }

  function NoteOne(r: Route, t: Trk, d: Lsn, empties: set<Lsn>, leader: nat): (r': Route) {
    if FilledAt(t, empties, d) && d in r.overlay then NoteFilled(r, d, leader) else r
  }

  /** The on_filled callbacks of one retire, in ascending order. */
  function NoteAll(r: Route, t: Trk, d: Lsn, hi: Lsn, empties: set<Lsn>, leader: nat): (r': Route)
    decreases hi - d + 1
  {
    if d > hi then r else NoteAll(NoteOne(r, t, d, empties, leader), t, d + 1, hi, empties, leader)
  }

  // ---------------------------------------------------------------- steps

  ghost predicate Enabled(s: State, step: Step) {
    match step
    case Count => true
    case Publish(d, w) =>
      && UncreatedAt(s.trk, d)
      && s.pageSize > 0 && Aligned(s.pageSize, w.addr, w.len)
      && (w.data.Some? ==> |w.data.value| == w.len)
    case Send(d) => d in s.trk.slots && d !in s.route.overlay
    case Deliver(d, i, c) => IsLeg(s, d, i) && s.legs[d][i].arrived == NotYet && c <= s.trk.frontier
    case Drop(d, i) => IsLeg(s, d, i) && s.legs[d][i].arrived == NotYet
    case Complete(d, i, report) =>
      && IsLeg(s, d, i) && s.legs[d][i].report == Waiting
      && (match report
          case Waiting => false
          case LegAcked => s.legs[d][i].arrived == Accepted
          case LegRejected => s.legs[d][i].arrived in {Refused, Dropped}
          case LegTimedOut => true)
    case Conclude(d) => d in s.route.overlay && d in s.trk.slots && (QuorumAcked(s, d) || AllReported(s, d))
    case Fold(m) => CanFold(s.route, m) && AimsAtMost(m, s.trk.frontier)
    case Ping(i, c) => i < |s.reps| && c <= s.trk.frontier
    case Heard(i, c) => i < |s.reps| && c <= s.reps[i].commit && s.route.flight.None?
    case Round(live, leader, upto) =>
      LiveQuorum(s.reps, live) && leader in live && s.trk.base < upto < s.trk.next
  }

  /** What the rest of the definitions need of a state; part of every invariant below. */
  ghost predicate Wf(s: State) {
    && s.pageSize > 0 && |s.reps| > 0
    && Journals(s.reps, s.pageSize)
    && |s.route.miss| == |s.reps| && |s.route.synced| == |s.reps| && s.route.n == |s.reps|
    && (forall d :: d in s.writes <==> d in s.trk.slots)
    && (forall d :: d in s.legs <==> d in s.route.overlay)
    && (forall d :: d in s.legs ==> |s.legs[d]| == |s.reps|)
    && (forall d :: d in s.route.overlay ==> d in s.trk.slots)
  }

  function SetRep(s: State, i: nat, r: Rep): State
    requires i < |s.reps|
  {
    s.(reps := s.reps[i := r])
  }

  function SetLeg(s: State, d: Lsn, i: nat, l: Leg): State
    requires IsLeg(s, d, i)
  {
    s.(legs := s.legs[d := s.legs[d][i := l]])
  }

  function ArrivalOf(result: Result<LsnPair, CraftError>): Arrival {
    if result.Ok? then Accepted else Refused
  }

  function NextSend(s: State, d: Lsn): (s': State)
    requires d in s.trk.slots
  {
    s.(route := OpenSlot(s.route, d, s.trk.slots[d].addr, s.trk.slots[d].len),
       legs := s.legs[d := seq(|s.reps|, _ => Leg(NotYet, Waiting))])
  }

  ghost function NextDeliver(s: State, d: Lsn, i: nat, c: Lsn): (s': State)
    requires Wf(s) && IsLeg(s, d, i)
  {
    var w := s.writes[d];
    var (r, result) := DoWrite(s.reps[i], Hdr(s.term, c), d, w.addr, w.len, w.data);
    SetLeg(SetRep(s, i, r), d, i, s.legs[d][i].(arrived := ArrivalOf(result)))
  }

  ghost function NextComplete(s: State, d: Lsn, i: nat, report: Report): (s': State)
    requires Wf(s) && IsLeg(s, d, i)
  {
    SetLeg(s, d, i, s.legs[d][i].(report := report)).(route := RecordCompletion(s.route, d, i, report == LegAcked))
  }

  /** The client retires a round's reply: note the filled slots, then resolve every slot up to `upto`. */
  function ApplyReply(s: State, reps: seq<Rep>, founders: map<Lsn, set<nat>>, leader: nat, upto: Lsn): (s': State)
    requires leader < |reps|
  {
    var empties := Empties(reps[leader], upto);
    var hi := Min(upto, s.trk.next - 1);
    s.(reps := reps,
       trk := Retire(s.trk, s.trk.frontier + 1, hi, empties),
       route := NoteAll(s.route, s.trk, s.trk.frontier + 1, hi, empties, leader),
       founders := founders)
  }

  ghost function NextRound(s: State, live: set<nat>, leader: nat, upto: Lsn): (s': State)
    requires Wf(s) && leader < |s.reps|
  {
    ApplyReply(s, RunResolution(s.reps, live, upto, s.pageSize), AddFounders(s, live, upto), leader, upto)
  }

  ghost function Next(s: State, step: Step): (s': State)
    requires Wf(s) && Enabled(s, step)
  {
    match step
    case Count => s.(trk := Bump(s.trk))
    case Publish(d, w) => s.(trk := Create(s.trk, d, w.addr, w.len), writes := s.writes[d := w])
    case Send(d) => NextSend(s, d)
    case Deliver(d, i, c) => NextDeliver(s, d, i, c)
    case Drop(d, i) => SetLeg(s, d, i, s.legs[d][i].(arrived := Dropped))
    case Complete(d, i, report) => NextComplete(s, d, i, report)
    case Conclude(d) => s.(trk := Resolve(s.trk, d, Classify(s, d)))
    case Fold(m) => s.(route := FoldNext(s.route, m))
    case Ping(i, c) => SetRep(s, i, DoKeepAlive(s.reps[i], Hdr(s.term, c)).0)
    case Heard(i, c) => s.(route := AdvanceSynced(s.route, i, c))
    case Round(live, leader, upto) => NextRound(s, live, leader, upto)
  }
}
