/** The client's verbs over its tracker and router objects. */
module ClientVerbs {
  import opened CraftTypes
  import Arith
  import opened ReadPlan
  import T = Tracker
  import R = Router
  import P = Protocol
  import opened DlsnTracking
  import opened RouteMapping
  import FoldEffect

  // ---------------------------------------------------------------- classifying a write

  /** A refusal that proves the replica did not journal the write. */
  predicate DeterministicReject(e: CraftError) {
    e == InvalidArgument || e == ReplicaDown
  }

  /** How a leg's result is reported: a timeout or a stale term proves nothing. */
  function ReportOf(r: Result<LsnPair, CraftError>): P.Report {
    if r.Ok? then P.LegAcked else if DeterministicReject(r.error) then P.LegRejected else P.LegTimedOut
  }

  function Count(results: seq<Result<LsnPair, CraftError>>, report: P.Report): (n: nat)
    ensures n <= |results|
  {
    if results == [] then 0
    else Count(results[..|results| - 1], report) + (if ReportOf(results[|results| - 1]) == report then 1 else 0)
  }

  function Succeeded(results: seq<Result<LsnPair, CraftError>>): (a: set<nat>)
    ensures forall i :: i in a <==> 0 <= i < |results| && results[i].Ok?
  {
    set i | 0 <= i < |results| && results[i].Ok?
  }

  lemma {:induction false} CountIsAll(results: seq<Result<LsnPair, CraftError>>, report: P.Report)
    ensures Count(results, report) == |results| <==> forall k :: 0 <= k < |results| ==> ReportOf(results[k]) == report
  {
    if results != [] { CountIsAll(results[..|results| - 1], report); }
  }

  /**
   * The outcome of a write whose legs have all finished: acked by a majority; provably
   * held by nobody when every leg was refused as malformed or never delivered; else failed.
   */
  method Classify(results: seq<Result<LsnPair, CraftError>>) returns (oc: T.Outcome)
    ensures oc == if Count(results, P.LegAcked) >= Quorum(|results|) then T.Acked
                  else if Count(results, P.LegRejected) == |results| then T.Void else T.Failed
    ensures oc.Acked? <==> 2 * |Succeeded(results)| > |results|
    ensures oc.Void? <==> forall k :: 0 <= k < |results| ==>
      results[k] == Err(InvalidArgument) || results[k] == Err(ReplicaDown)
    ensures !oc.InFlight?
  {
    var acks, refused := 0, 0;
    for i := 0 to |results|
      invariant acks == Count(results[..i], P.LegAcked) && refused == Count(results[..i], P.LegRejected)
    {
      assert results[..i + 1][..i] == results[..i];
      if results[i].Ok? { acks := acks + 1; } else if DeterministicReject(results[i].error) { refused := refused + 1; }
    }
    assert results[..|results|] == results;
    CountIsSize(results, P.LegAcked, Succeeded(results));
    CountIsAll(results, P.LegRejected);
    if acks >= Quorum(|results|) { return T.Acked; }
    return if refused == |results| then T.Void else T.Failed;
  }

  /** The legs of `d` carry exactly these results. */
  ghost predicate Reports(s: P.State, d: Lsn, results: seq<Result<LsnPair, CraftError>>) {
    && |results| == |s.reps| && d in s.legs && |s.legs[d]| == |s.reps|
    && forall i :: 0 <= i < |results| ==> s.legs[d][i].report == ReportOf(results[i])
  }

  /** Counting results is counting members: the client classifies as the session machine does. */
  lemma ClassifyAgrees(s: P.State, d: Lsn, results: seq<Result<LsnPair, CraftError>>)
    requires Reports(s, d, results)
    ensures P.QuorumAcked(s, d) <==> Count(results, P.LegAcked) >= Quorum(|results|)
    ensures P.AllRejected(s, d) <==> Count(results, P.LegRejected) == |results|
  {
    CountIsSize(results, P.LegAcked, P.Acks(s, d));
    CountIsSize(results, P.LegRejected, P.Refusals(s, d));
  }

  lemma {:induction false} CountIsSize(results: seq<Result<LsnPair, CraftError>>, report: P.Report, members: set<nat>)
    requires forall i :: i in members <==> 0 <= i < |results| && ReportOf(results[i]) == report
    ensures Count(results, report) == |members|
  {
    hide ReportOf;
    if results == [] {
      assert members == {};
    } else {
      var k := |results| - 1;
      var rest := members - {k};
      CountIsSize(results[..k], report, rest);
      if k in members { assert members == rest + {k}; } else { assert members == rest; }
    }
  }

  // ---------------------------------------------------------------- retiring a round's reply

  /** Resolved dLSNs are left alone, so a hop over them changes nothing. */
  lemma {:induction false} RetireSkips(t: T.Trk, h: Lsn, u: Lsn, hi: Lsn, empties: set<Lsn>)
    requires T.TrkInv(t) && h <= u && forall d :: h <= d < u && d <= hi ==> d in t.done
    ensures T.Retire(t, h, hi, empties) == T.Retire(t, u, hi, empties)
    decreases u - h
  {
    if h < u && h <= hi {
      assert T.ResolvedAt(t, h);
      RetireSkips(t, h + 1, u, hi, empties);
    }
  }

  lemma {:induction false} NoteSkips(r: R.Route, t: T.Trk, h: Lsn, u: Lsn, hi: Lsn, empties: set<Lsn>, leader: nat)
    requires T.TrkInv(t) && h <= u && forall d :: h <= d < u && d <= hi ==> d in t.done
    ensures P.NoteAll(r, t, h, hi, empties, leader) == P.NoteAll(r, t, u, hi, empties, leader)
    decreases u - h
  {
    if h < u && h <= hi {
      assert T.ResolvedAt(t, h);
      NoteSkips(r, t, h + 1, u, hi, empties, leader);
    }
  }

  function SetOf(s: seq<Lsn>): (e: set<Lsn>)
    ensures forall d :: d in e <==> d in s
  {
    set d | d in s
  }

  /** From `h` on the tracker is as it was when the retire began. */
  ghost predicate SameFrom(t0: T.Trk, t: T.Trk, h: Lsn) {
    && (forall d :: d >= h ==> (d in t.done <==> d in t0.done) && (d in t.slots <==> d in t0.slots))
    && (forall d :: d >= h && d in t0.slots && d in t.slots ==> t.slots[d] == t0.slots[d])
  }

  lemma {:induction false} NoteSame(r: R.Route, t: T.Trk, t': T.Trk, h: Lsn, hi: Lsn, empties: set<Lsn>, leader: nat)
    requires SameFrom(t, t', h)
    ensures P.NoteAll(r, t, h, hi, empties, leader) == P.NoteAll(r, t', h, hi, empties, leader)
    decreases hi - h + 1
  {
    if h <= hi { NoteSame(P.NoteOne(r, t, h, empties, leader), t, t', h + 1, hi, empties, leader); }
  }

  /** One dLSN of the retire, on both objects. */
  method RetireAt(t: DlsnTracker, r: ReadRouteMap, u: Lsn, empties: seq<Lsn>, leader: nat)
    requires t.Valid() && r.Valid() && leader < r.n && u !in t.done
    modifies t, r
    ensures t.Valid() && r.Valid() && r.n == old(r.n) && r.rrInflight == old(r.rrInflight) && t.want == old(t.want)
    ensures t.View() == T.RetireOne(old(t.View()), u, SetOf(empties))
    ensures r.View() == P.NoteOne(old(r.View()), old(t.View()), u, SetOf(empties), leader)
    ensures SameFrom(old(t.View()), t.View(), u + 1) && t.next == old(t.next)
  {
    assert !T.ResolvedAt(t.View(), u);
    T.RetireOneExact(t.View(), u, SetOf(empties));
    if u in t.slots {
      if u in empties {
        t.Resolve(u, T.Void);
      } else {
        if u in r.overlay { r.NoteFilled(u, leader); }
        t.Resolve(u, T.Acked);
      }
    }
    ghost var t0, t1 := old(t.View()), t.View();
    forall d | d > u ensures d in t1.done <==> d in t0.done {
      assert T.ResolvedAt(t1, d) == T.ResolvedAt(t0, d);
    }
  }

  lemma HopDone(done: set<Lsn>, h: Lsn, u: Lsn, hi: Lsn)
    requires u == Min(T.CompletedUpTo(done, h), hi) + 1 && h <= hi
    ensures h <= u && (forall d :: h <= d < u && d <= hi ==> d in done) && (u <= hi ==> u !in done)
  {
  }

  /**
   * retire_upto(): every visible unresolved slot up to `upto` becomes Empty when the reply
   * lists it and acked otherwise, and the router learns of a filled slot before the tracker does.
   */
  method RetireUpTo(t: DlsnTracker, r: ReadRouteMap, upto: Lsn, empties: seq<Lsn>, leader: nat)
    requires t.Valid() && r.Valid() && leader < r.n
    modifies t, r
    ensures t.Valid() && r.Valid() && r.n == old(r.n) && r.rrInflight == old(r.rrInflight) && t.want == old(t.want)
    ensures var lo, hi := old(t.frontier) + 1, Min(upto, old(t.next) - 1);
      && t.View() == T.Retire(old(t.View()), lo, hi, SetOf(empties))
      && r.View() == P.NoteAll(old(r.View()), old(t.View()), lo, hi, SetOf(empties), leader)
  {
    hide T.Retire, P.NoteAll, T.RetireOne, P.NoteOne, T.CompletedUpTo, T.TrkInv, SetOf, Min;
    var hi := Min(upto, t.next - 1);
    var h := t.frontier + 1;
    while h <= hi
      invariant t.Valid() && r.Valid() && r.n == old(r.n) && r.rrInflight == old(r.rrInflight) && t.want == old(t.want)
      invariant T.Retire(t.View(), h, hi, SetOf(empties)) ==
        T.Retire(old(t.View()), old(t.frontier) + 1, hi, SetOf(empties))
      invariant P.NoteAll(r.View(), t.View(), h, hi, SetOf(empties), leader) ==
                P.NoteAll(old(r.View()), old(t.View()), old(t.frontier) + 1, hi, SetOf(empties), leader)
      decreases hi - h + 1
    {
      var u := Min(T.CompletedUpTo(t.done, h), hi) + 1;
      HopDone(t.done, h, u, hi);
      RetireSkips(t.View(), h, u, hi, SetOf(empties));
      NoteSkips(r.View(), t.View(), h, u, hi, SetOf(empties), leader);
      h := u;
      if u > hi { break; }
      RetireNext(t.View(), r.View(), u, hi, SetOf(empties), leader);
      ghost var t0 := t.View();
      RetireAt(t, r, u, empties, leader);
      NoteSame(r.View(), t0, t.View(), u + 1, hi, SetOf(empties), leader);
      h := u + 1;
    }
    RetireEnd(t.View(), r.View(), h, hi, SetOf(empties), leader);
  }

  lemma RetireNext(t: T.Trk, r: R.Route, u: Lsn, hi: Lsn, empties: set<Lsn>, leader: nat)
    requires u <= hi
    ensures T.Retire(t, u, hi, empties) == T.Retire(T.RetireOne(t, u, empties), u + 1, hi, empties)
    ensures P.NoteAll(r, t, u, hi, empties, leader) ==
            P.NoteAll(P.NoteOne(r, t, u, empties, leader), t, u + 1, hi, empties, leader)
  {
  }

  lemma RetireEnd(t: T.Trk, r: R.Route, h: Lsn, hi: Lsn, empties: set<Lsn>, leader: nat)
    requires h > hi
    ensures T.Retire(t, h, hi, empties) == t && P.NoteAll(r, t, h, hi, empties, leader) == r
  {
  }

  // ---------------------------------------------------------------- routing a read

  /** The highest horizon of a plan, but at least the frontier. */
  function TopHorizon(f: Lsn, segs: seq<Segment>): (h: Lsn)
    ensures f <= h && forall k :: 0 <= k < |segs| ==> segs[k].tag <= h
    ensures h == f || exists k :: 0 <= k < |segs| && segs[k].tag == h
  {
    if segs == [] then f else Max(TopHorizon(f, segs[..|segs| - 1]), segs[|segs| - 1].tag)
  }

  method HighestHorizon(f: Lsn, segs: seq<Segment>) returns (hmax: Lsn)
    ensures hmax == TopHorizon(f, segs)
  {
    hmax := f;
    for k := 0 to |segs|
      invariant hmax == TopHorizon(f, segs[..k])
    {
      assert segs[..k + 1][..k] == segs[..k];
      hmax := Max(hmax, segs[k].tag);
    }
    assert segs[..|segs|] == segs;
  }

  /** The member `hop` places after `start`, going round. */
  function Peer(start: nat, hop: nat, n: nat): (idx: nat)
    requires n > 0
    ensures idx < n
  {
    (start + hop) % n
  }

  lemma PeerIs(start: nat, hop: nat, n: nat)
    requires start < n && hop < n
    ensures Peer(start, hop, n) == if start + hop < n then start + hop else start + hop - n
  {
    var k := start + hop;
    if k < n { Arith.DivUnique(k, n, 0, k); } else { Arith.DivUnique(k, n, 1, k - n); }
  }

  /** Going round from `start` meets every member. */
  lemma PeersMeetAll(start: nat, i: nat, n: nat) returns (hop: nat)
    requires start < n && i < n
    ensures hop < n && Peer(start, hop, n) == i
  {
    hide Peer;
    hop := if i >= start then i - start else i + n - start;
    PeerIs(start, hop, n);
  }

  /** `target` is the first member from `start` on, going round, that may serve the range; none if there is none. */
  ghost predicate FirstFrom(r: R.Route, start: nat, addr: nat, len: nat, hmax: Lsn, target: Option<nat>)
    requires |r.synced| == |r.miss| == r.n > start
  {
    if target.None? then forall i: nat :: i < r.n ==> !R.Eligible(r, i, addr, len, hmax)
    else exists hop: nat ::
      && hop < r.n && target.value == (if start + hop < r.n then start + hop else start + hop - r.n)
      && target.value == Peer(start, hop, r.n) && R.Eligible(r, target.value, addr, len, hmax)
      && forall j: nat :: j < hop ==> !R.Eligible(r, Peer(start, j, r.n), addr, len, hmax)
  }

  /** The first eligible member from `start` on, or none. */
  method Pick(r: ReadRouteMap, addr: nat, len: nat, hmax: Lsn, start: nat) returns (target: Option<nat>)
    requires r.Valid() && start < r.n
    ensures FirstFrom(r.View(), start, addr, len, hmax, target)
  {
    hide R.Eligible, Peer;
    for hop := 0 to r.n
      invariant forall j: nat :: j < hop ==> !R.Eligible(r.View(), Peer(start, j, r.n), addr, len, hmax)
    {
      var ok := r.Eligible(Peer(start, hop, r.n), addr, len, hmax);
      if ok {
        PeerIs(start, hop, r.n);
        return Some(Peer(start, hop, r.n));
      }
    }
    forall i: nat | i < r.n ensures !R.Eligible(r.View(), i, addr, len, hmax) {
      var hop := PeersMeetAll(start, i, r.n);
    }
    return None;
  }

  /** Fold up to the frontier, then pick a member eligible for the whole plan. */
  method Route(t: DlsnTracker, r: ReadRouteMap, addr: nat, len: nat, segs: seq<Segment>, start: nat)
    returns (target: Option<nat>, ghost batch: seq<R.PendingMiss>)
    requires r.Valid() && start < r.n && r.flight.None?
    modifies r
    ensures r.Valid() && r.n == old(r.n)
    ensures R.SortedBatch(batch, R.Select(old(r.pending), R.FoldTarget(old(r.View()), t.frontier), true))
    ensures r.View() == R.FoldTo(old(r.View()), t.frontier, batch)
    ensures FoldEffect.Advanced(old(r.View()), r.View(), t.frontier)
    ensures FirstFrom(r.View(), start, addr, len, TopHorizon(t.frontier, segs), target)
  {
    batch := r.FoldTo(t.frontier);
    FoldKeepsSize(old(r.View()), t.frontier, batch);
    hide R.Eligible, R.FoldTo, R.SortedBatch, R.Select, R.FoldTarget;
    var hmax := HighestHorizon(t.frontier, segs);
    target := Pick(r, addr, len, hmax, start);
  }

  lemma FoldKeepsSize(r: R.Route, f: Lsn, batch: seq<R.PendingMiss>)
    ensures R.FoldTo(r, f, batch).n == r.n
  {
  }

  // ---------------------------------------------------------------- serving a read

  /** The highest watermarks among `replies`, or -1. */
  ghost predicate Highest(replies: seq<Result<LsnPair, CraftError>>, l: LsnPair) {
    && (forall k :: 0 <= k < |replies| && replies[k].Ok? ==>
          replies[k].value.commitLsn <= l.commitLsn && replies[k].value.lastAppendLsn <= l.lastAppendLsn)
    && (l.commitLsn == -1 ||
        exists k :: 0 <= k < |replies| && replies[k].Ok? && replies[k].value.commitLsn == l.commitLsn)
    && (l.lastAppendLsn == -1 ||
        exists k :: 0 <= k < |replies| && replies[k].Ok? && replies[k].value.lastAppendLsn == l.lastAppendLsn)
  }

  /** The replies to the segments of one plan: the first error, or the highest watermarks. */
  method Combine(replies: seq<Result<LsnPair, CraftError>>) returns (result: Result<LsnPair, CraftError>)
    ensures result.Ok? <==> forall k :: 0 <= k < |replies| ==> replies[k].Ok?
    ensures result.Ok? ==> Highest(replies, result.value)
    ensures result.Err? ==>
      exists k :: 0 <= k < |replies| && replies[k] == result && forall j :: 0 <= j < k ==> replies[j].Ok?
  {
    var l := LsnPair(-1, -1);
    for k := 0 to |replies|
      invariant forall j :: 0 <= j < k ==> replies[j].Ok?
      invariant Highest(replies[..k], l)
    {
      if replies[k].Err? { return replies[k]; }
      ghost var was := replies[..k];
      assert forall j :: 0 <= j < k ==> replies[..k + 1][j] == was[j];
      l := LsnPair(Max(l.commitLsn, replies[k].value.commitLsn), Max(l.lastAppendLsn, replies[k].value.lastAppendLsn));
    }
    assert replies[..|replies|] == replies;
    return Ok(l);
  }

  /** The member could not be reached; the read may go to another one. */
  predicate Unreachable(reply: Result<LsnPair, CraftError>) {
    reply == Err(ReplicaDown) || reply == Err(TimedOut)
  }

  /** The member `hop` places from `start` may serve and answers; every earlier one that may is unreachable. */
  ghost predicate Decides(r: R.Route, start: nat, addr: nat, len: nat, hmax: Lsn,
                          replies: seq<Result<LsnPair, CraftError>>, hop: nat)
    requires |r.synced| == |r.miss| == |replies| == r.n > start
  {
    && hop < r.n && R.Eligible(r, Peer(start, hop, r.n), addr, len, hmax)
    && !Unreachable(replies[Peer(start, hop, r.n)])
    && forall j: nat :: j < hop && R.Eligible(r, Peer(start, j, r.n), addr, len, hmax) ==>
         Unreachable(replies[Peer(start, j, r.n)])
  }

  /**
   * read() once the plan is made, when the members would answer with `replies`: the first
   * eligible member that can be reached decides, and its watermark goes to the router. With
   * none, NO_QUORUM says that somebody was eligible and NOT_ELIGIBLE that nobody was.
   */
  method ServeRead(r: ReadRouteMap, addr: nat, len: nat, hmax: Lsn, start: nat,
                   replies: seq<Result<LsnPair, CraftError>>)
    returns (result: Result<LsnPair, CraftError>, ghost served: Option<nat>)
    requires r.Valid() && start < r.n == |replies|
    modifies r
    ensures r.Valid() && r.n == old(r.n)
    ensures served.Some? ==>
      && Decides(old(r.View()), start, addr, len, hmax, replies, served.value)
      && result == replies[Peer(start, served.value, r.n)]
      && r.View() == if result.Err? then old(r.View())
                     else R.AdvanceSynced(old(r.View()), Peer(start, served.value, r.n), result.value.commitLsn)
    ensures served.None? ==>
      && (forall hop: nat :: !Decides(old(r.View()), start, addr, len, hmax, replies, hop)) && r.View() == old(r.View())
      && result == if exists i: nat :: i < r.n && R.Eligible(old(r.View()), i, addr, len, hmax)
                   then Err(NoQuorum) else Err(NotEligible)
  {
    hide R.Eligible, Peer, R.AdvanceSynced;
    var anyEligible := false;
    for hop := 0 to r.n
      invariant r.View() == old(r.View()) && r.Valid()
      invariant forall j: nat :: j < hop && R.Eligible(r.View(), Peer(start, j, r.n), addr, len, hmax) ==>
        Unreachable(replies[Peer(start, j, r.n)])
      invariant anyEligible <==> exists j: nat :: j < hop && R.Eligible(r.View(), Peer(start, j, r.n), addr, len, hmax)
    {
      var idx := Peer(start, hop, r.n);
      var ok := r.Eligible(idx, addr, len, hmax);
      if !ok { continue; }
      anyEligible := true;
      if replies[idx].Ok? {
        r.AdvanceSynced(idx, replies[idx].value.commitLsn);
        return replies[idx], Some(hop);
      }
      if replies[idx] != Err(ReplicaDown) && replies[idx] != Err(TimedOut) { return replies[idx], Some(hop); }
    }
    forall i: nat | i < r.n && R.Eligible(r.View(), i, addr, len, hmax) ensures anyEligible {
      var hop := PeersMeetAll(start, i, r.n);
    }
    return Err(if anyEligible then NoQuorum else NotEligible), None;
  }
}
