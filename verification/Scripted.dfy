/** Sessions played from a script: one member misses each scripted write, everybody else acks it. */
module Scripted {
  import opened CraftTypes
  import opened Replica
  import opened Tracker
  import opened Router
  import opened Cluster
  import opened Protocol
  import opened Exclusion
  import opened ExclusionRound
  import opened Safety
  import opened SafetyRound
  import opened ReadSafety

  // ---------------------------------------------------------------- runs, step by step

  lemma {:induction false} RunOn(s: State, a: seq<Step>, m: State, b: seq<Step>, s': State)
    requires SafeRun(s, a, m) && SafeRun(m, b, s')
    ensures SafeRun(s, a + b, s')
    decreases |a|
  {
    hide Next, Enabled, Wf, SafeStep;
    if a == [] {
      assert a + b == b;
    } else {
      RunOn(Next(s, a[0]), a[1..], m, b, s');
      assert (a + b)[0] == a[0] && (a + b)[1..] == a[1..] + b;
    }
  }

  lemma ReachesOn(a: State, b: State, c: State)
    requires Reaches(a, b) && Reaches(b, c)
    ensures Reaches(a, c)
  {
    var x :| SafeRun(a, x, b);
    var y :| SafeRun(b, y, c);
    RunOn(a, x, b, y, c);
  }

  lemma ReachesSelf(s: State)
    ensures Reaches(s, s)
  {
    assert SafeRun(s, [], s);
  }

  /** Any step but a round. */
  lemma Goes(s0: State, s: State, step: Step)
    requires Reaches(s0, s) && ExclInv(s) && Wf(s) && Enabled(s, step) && !step.Round?
    ensures Reaches(s0, Next(s, step)) && ExclInv(Next(s, step))
  {
    hide Next, Enabled, ExclInv, Wf;
    StepKeepsExcl(s, step);
    var s' := Next(s, step);
    assert SafeRun(s', [], s');
    assert [step][0] == step && [step][1..] == [];
    assert SafeRun(s, [step], s');
    assert Reaches(s, s');
    hide Reaches, SafeRun;
    ReachesOn(s0, s, s');
  }

  // ---------------------------------------------------------------- one write

  ghost predicate Writable(ps: nat, w: Write) {
    ps > 0 && Aligned(ps, w.addr, w.len) && (w.data.Some? ==> |w.data.value| == w.len)
  }

  /** The next dLSN is reserved for `w` and its legs are under way. */
  ghost predicate Issued(s: State, s': State, w: Write) {
    var d := s.trk.next;
    s' == s.(trk := Create(Bump(s.trk), d, w.addr, w.len), writes := s.writes[d := w],
             route := OpenSlot(s.route, d, w.addr, w.len),
             legs := s.legs[d := seq(|s.reps|, _ => Leg(NotYet, Waiting))])
  }

  lemma FreshDlsn(s: State)
    requires ExclInv(s)
    ensures -1 <= s.trk.frontier && s.trk.next !in s.trk.slots && s.trk.next !in s.route.overlay
    ensures s.route.n == |s.reps| && TrkInv(s.trk) && Wf(s) && s.pageSize > 0
  {
  }

  lemma Issue(s0: State, s: State, w: Write) returns (s': State)
    requires Reaches(s0, s) && ExclInv(s) && Writable(s.pageSize, w)
    ensures Reaches(s0, s') && ExclInv(s') && Issued(s, s', w)
  {
    hide Reaches, ExclInv, Wf;
    var d := s.trk.next;
    FreshDlsn(s);
    Goes(s0, s, Count);
    var s1 := Next(s, Count);
    ExclWf(s1);
    Goes(s0, s1, Publish(d, w));
    var s2 := Next(s1, Publish(d, w));
    ExclWf(s2);
    Goes(s0, s2, Send(d));
    s' := Next(s2, Send(d));
  }

  ghost function SlotOfWrite(s: State, d: Lsn): Slot
    requires d in s.writes && s.pageSize > 0
    requires s.writes[d].data.Some? ==> |s.writes[d].data.value| == s.writes[d].len
  {
    SlotOf(s.pageSize, s.writes[d].addr, s.writes[d].len, s.writes[d].data)
  }

  lemma ExclLinked(s: State)
    requires ExclInv(s)
    ensures Linked(s)
  {
  }

  /** What a delivery that piggybacks nothing does. */
  lemma Accepts(s: State, d: Lsn, i: nat)
    requires Linked(s) && IsLeg(s, d, i) && !IsEmptyAt(s.reps[i], d)
    ensures d in s.writes && WriteOk(s, d)
    ensures NextDeliver(s, d, i, -1) ==
      s.(reps := s.reps[i := Append(s.reps[i], d, SlotOfWrite(s, d))],
         legs := s.legs[d := s.legs[d][i := s.legs[d][i].(arrived := Accepted)]])
  {
    assert WriteOk(s, d) && PrefixPresent(s.reps[i]);
  }

  lemma Arrive(s0: State, s: State, d: Lsn, i: nat) returns (s': State)
    requires Reaches(s0, s) && ExclInv(s) && IsLeg(s, d, i) && -1 <= s.trk.frontier
    requires s.legs[d][i].arrived == NotYet && !IsEmptyAt(s.reps[i], d)
    ensures Reaches(s0, s') && ExclInv(s') && d in s.writes && WriteOk(s, d)
    ensures s' == s.(reps := s.reps[i := Append(s.reps[i], d, SlotOfWrite(s, d))],
                     legs := s.legs[d := s.legs[d][i := s.legs[d][i].(arrived := Accepted)]])
  {
    hide Reaches, NextRound, NextComplete, NextSend, Resolve, FoldNext, AdvanceSynced, DoKeepAlive, Classify, DoWrite;
    hide ExclInv, NextDeliver, Wf, Linked;
    ExclWf(s);
    ExclLinked(s);
    Accepts(s, d, i);
    Goes(s0, s, Deliver(d, i, -1));
    s' := NextDeliver(s, d, i, -1);
  }

  lemma Told(s0: State, s: State, d: Lsn, i: nat, report: Report) returns (s': State)
    requires IsLeg(s, d, i) && d in s.route.overlay
    requires Reaches(s0, s) && ExclInv(s) && Enabled(s, Complete(d, i, report))
    ensures Reaches(s0, s') && ExclInv(s')
    ensures s' == s.(legs := s.legs[d := s.legs[d][i := s.legs[d][i].(report := report)]],
                     route := RecordCompletion(s.route, d, i, report == LegAcked))
  {
    hide Reaches, ExclInv, RecordCompletion, Wf, NextRound, NextDeliver, NextSend, Resolve, FoldNext, AdvanceSynced;
    hide DoKeepAlive, Classify;
    ExclWf(s);
    Goes(s0, s, Complete(d, i, report));
    s' := NextComplete(s, d, i, report);
  }

  /** Only dLSN `d` of the replicas' journals may have changed. */
  ghost predicate OnlyAt(a: seq<Rep>, b: seq<Rep>, d: Lsn) {
    && |a| == |b|
    && (forall m, e :: 0 <= m < |a| && e != d ==> Untouched(a[m], b[m], e))
    && (forall m :: 0 <= m < |a| ==> OnlyJournal(a[m], b[m]))
  }

  lemma OnlyAtTwice(a: seq<Rep>, b: seq<Rep>, c: seq<Rep>, d: Lsn)
    requires OnlyAt(a, b, d) && OnlyAt(b, c, d)
    ensures OnlyAt(a, c, d)
  {
    forall m, e | 0 <= m < |a| && e != d ensures Untouched(a[m], c[m], e) {
      assert Untouched(a[m], b[m], e) && Untouched(b[m], c[m], e);
    }
    forall m | 0 <= m < |a| ensures OnlyJournal(a[m], c[m]) {
      assert OnlyJournal(a[m], b[m]) && OnlyJournal(b[m], c[m]);
    }
  }

  /** The leg of `d` to `i` was heard of, and nothing else but the member's own journal changed. */
  ghost predicate OneLeg(s: State, s': State, d: Lsn, i: nat, leg: Leg) {
    && IsLeg(s, d, i) && i < |s.reps| == |s'.reps| && d in s.route.overlay
    && s'.reps == s.reps[i := s'.reps[i]] && OnlyAt(s.reps, s'.reps, d)
    && s'.legs == s.legs[d := s.legs[d][i := leg]]
    && s'.route == RecordCompletion(s.route, d, i, leg.report == LegAcked)
    && s'.trk == s.trk && s'.writes == s.writes && s'.pageSize == s.pageSize
  }

  /** A leg of `d` arrives at `i` and is acked. */
  lemma Land(s0: State, s: State, d: Lsn, i: nat) returns (s': State)
    requires Reaches(s0, s) && ExclInv(s) && IsLeg(s, d, i) && i < |s.reps| && d in s.route.overlay
    requires -1 <= s.trk.frontier
    requires s.legs[d][i] == Leg(NotYet, Waiting) && d !in s.reps[i].journal
    ensures Reaches(s0, s') && ExclInv(s') && OneLeg(s, s', d, i, Leg(Accepted, LegAcked))
  {
    hide ExclInv, Reaches, Wf, RecordCompletion;
    var m := Arrive(s0, s, d, i);
    s' := Told(s0, m, d, i, LegAcked);
    assert m.legs[d] == s.legs[d][i := Leg(Accepted, Waiting)];
    assert s'.legs[d] == s.legs[d][i := Leg(Accepted, LegAcked)];
    assert s'.legs == s.legs[d := s'.legs[d]];
  }

  /** A leg of `d` to `i` times out and is never delivered. */
  lemma TimeOut(s0: State, s: State, d: Lsn, i: nat) returns (s': State)
    requires Reaches(s0, s) && ExclInv(s) && IsLeg(s, d, i) && i < |s.reps| && d in s.route.overlay
    requires s.legs[d][i] == Leg(NotYet, Waiting)
    ensures Reaches(s0, s') && ExclInv(s') && OneLeg(s, s', d, i, Leg(NotYet, LegTimedOut)) && s'.reps == s.reps
  {
    hide ExclInv, Reaches, Wf, RecordCompletion;
    s' := Told(s0, s, d, i, LegTimedOut);
    assert s.reps == s.reps[i := s'.reps[i]];
  }

  // ---------------------------------------------------------------- the router

  /** The slot of `d` when its first `j` legs are in and all but `x` acked. */
  function SlotAfter(addr: nat, len: nat, x: nat, j: nat): RouteSlot {
    RouteSlot(addr, len, Members(j) - {x}, Members(j), false)
  }

  /** The router then; the last leg queues what `x` missed. `x == r.n` means that nobody missed it. */
  function RouteAfter(r: Route, d: Lsn, addr: nat, len: nat, x: nat, j: nat): Route {
    var slot := SlotAfter(addr, len, x, j);
    (if j == r.n && x < r.n then PushMiss(r, d, slot) else r).(
      overlay := r.overlay[d := slot],
      done := if j == r.n then r.done + {d} else r.done)
  }

  lemma AllButOne(n: nat, x: nat)
    requires n >= 3 && x <= n
    ensures |Members(n) - {x}| >= Quorum(n) && (x < n <==> Members(n) - {x} != Members(n))
  {
    if x < n {
      assert Members(n) == (Members(n) - {x}) + {x};
    } else {
      assert Members(n) - {x} == Members(n);
    }
  }

  lemma LegCounts(addr: nat, len: nat, x: nat, j: nat)
    ensures CompletedSlot(SlotAfter(addr, len, x, j), j, j != x) == SlotAfter(addr, len, x, j + 1)
  {
    assert Members(j) + {j} == Members(j + 1);
    assert (Members(j) - {x}) + (if j != x then {j} else {}) == Members(j + 1) - {x};
  }

  /** The last leg is the one that completes the slot, which is then durable and missed by `x`. */
  lemma LastCounted(addr: nat, len: nat, x: nat, j: nat, n: nat)
    requires j < n && n >= 3 && x <= n
    ensures var now := SlotAfter(addr, len, x, j + 1);
      && (now.completed == Members(n) <==> j + 1 == n)
      && (j + 1 == n ==> |now.holders| >= Quorum(n) && (now.holders != Members(n) <==> x < n))
  {
    AllButOne(n, x);
    if j + 1 < n { assert j + 1 in Members(n) && j + 1 !in Members(j + 1); }
  }

  lemma SetTwice(o: map<Lsn, RouteSlot>, d: Lsn, was: RouteSlot, now: RouteSlot)
    ensures o[d := was][d := now] == o[d := now]
  {
  }

  lemma LegRecorded(r: Route, d: Lsn, addr: nat, len: nat, x: nat, j: nat)
    requires j < r.n && r.n >= 3 && x <= r.n
    ensures d in RouteAfter(r, d, addr, len, x, j).overlay
    ensures RecordCompletion(RouteAfter(r, d, addr, len, x, j), d, j, j != x) == RouteAfter(r, d, addr, len, x, j + 1)
  {
    hide Members, Quorum, SlotAfter;
    var was, now := SlotAfter(addr, len, x, j), SlotAfter(addr, len, x, j + 1);
    LegCounts(addr, len, x, j);
    LastCounted(addr, len, x, j, r.n);
    SetTwice(r.overlay, d, was, now);
  }

  lemma NothingRecorded(r: Route, d: Lsn, addr: nat, len: nat, x: nat)
    requires r.n > 0
    ensures RouteAfter(r, d, addr, len, x, 0) == OpenSlot(r, d, addr, len)
  {
    assert Members(0) == {} && Members(0) - {x} == {};
  }

  // ---------------------------------------------------------------- all legs

  /** The legs of `d` to members below `j` are in; all but `x` acked. `s` is where they started. */
  ghost predicate LegsIn(s: State, r: Route, s': State, d: Lsn, w: Write, x: nat, j: nat) {
    && |s'.reps| == |s.reps| == r.n && j <= r.n && OnlyAt(s.reps, s'.reps, d)
    && d in s'.legs && |s'.legs[d]| == r.n
    && (forall i :: 0 <= i < j && i != x ==> s'.legs[d][i].report == LegAcked)
    && (forall i :: j <= i < r.n ==> s'.legs[d][i] == Leg(NotYet, Waiting) && s'.reps[i] == s.reps[i])
    && (x < r.n ==> s'.reps[x] == s.reps[x])
    && s'.route == RouteAfter(r, d, w.addr, w.len, x, j)
    && s'.trk == s.trk && s'.writes == s.writes && s'.pageSize == s.pageSize
  }

  lemma LegsBegin(s: State, r: Route, d: Lsn, w: Write, x: nat)
    requires s.route == OpenSlot(r, d, w.addr, w.len) && |s.reps| == r.n > 0
    requires d in s.legs && s.legs[d] == seq(|s.reps|, _ => Leg(NotYet, Waiting))
    ensures LegsIn(s, r, s, d, w, x, 0)
  {
    NothingRecorded(r, d, w.addr, w.len, x);
  }

  lemma LegsNext(s: State, r: Route, m: State, s': State, d: Lsn, w: Write, x: nat, j: nat, leg: Leg)
    requires LegsIn(s, r, m, d, w, x, j) && OneLeg(m, s', d, j, leg) && j < r.n && r.n >= 3 && x <= r.n
    requires (leg.report == LegAcked) == (j != x) && (j == x ==> s'.reps == m.reps)
    ensures LegsIn(s, r, s', d, w, x, j + 1)
  {
    hide RecordCompletion, RouteAfter, OnlyAt;
    LegRecorded(r, d, w.addr, w.len, x, j);
    OnlyAtTwice(s.reps, m.reps, s'.reps, d);
  }

  lemma LegsSize(s: State, r: Route, m: State, d: Lsn, w: Write, x: nat, j: nat)
    requires LegsIn(s, r, m, d, w, x, j)
    ensures |s.reps| == r.n
  {
  }

  /** What the next leg needs. */
  lemma LegReady(s: State, r: Route, m: State, d: Lsn, w: Write, x: nat, j: nat)
    requires LegsIn(s, r, m, d, w, x, j) && j < r.n && d !in s.reps[j].journal
    ensures IsLeg(m, d, j) && j < |m.reps| && d in m.route.overlay && m.legs[d][j] == Leg(NotYet, Waiting)
    ensures d !in m.reps[j].journal && m.trk == s.trk
  {
  }

  lemma {:induction false} LegsArrive(s0: State, s: State, r: Route, d: Lsn, w: Write, x: nat, j: nat)
    returns (s': State)
    requires Reaches(s0, s) && ExclInv(s) && LegsIn(s, r, s, d, w, x, 0) && j <= r.n && r.n >= 3 && x <= r.n
    requires -1 <= s.trk.frontier && forall i :: 0 <= i < r.n ==> d !in s.reps[i].journal
    ensures Reaches(s0, s') && ExclInv(s') && LegsIn(s, r, s', d, w, x, j)
  {
    hide *;
    LegsSize(s, r, s, d, w, x, 0);
    if j == 0 {
      s' := s;
    } else {
      var m := LegsArrive(s0, s, r, d, w, x, j - 1);
      LegReady(s, r, m, d, w, x, j - 1);
      if j - 1 == x {
        s' := TimeOut(s0, m, d, j - 1);
        LegsNext(s, r, m, s', d, w, x, j - 1, Leg(NotYet, LegTimedOut));
      } else {
        s' := Land(s0, m, d, j - 1);
        LegsNext(s, r, m, s', d, w, x, j - 1, Leg(Accepted, LegAcked));
      }
    }
  }

  // ---------------------------------------------------------------- the whole write

  lemma AckedByMost(s: State, d: Lsn, x: nat)
    requires |s.reps| >= 3 && x <= |s.reps|
    requires forall i :: 0 <= i < |s.reps| && i != x ==> LegReported(s, d, i, LegAcked)
    ensures QuorumAcked(s, d)
  {
    AllButOne(|s.reps|, x);
    assert Members(|s.reps|) - {x} <= Acks(s, d);
    SubsetSize(Members(|s.reps|) - {x}, Acks(s, d));
  }

  /** Acking the one slot above the frontier brings F and Ha to it. */
  lemma NextResolved(t: Trk, d: Lsn)
    requires TrkInv(t) && d in t.slots && !ResolvedAt(t, d) && t.frontier == d - 1 && t.next == d + 1
    ensures var t' := Resolve(t, d, Acked);
      && t'.base == t.base && t'.next == d + 1 && t'.frontier == d && t'.highestAcked == d
      && t'.slots == t.slots[d := t.slots[d].(outcome := Acked)]
  {
    ResolveExact(t, d, Acked);
    var t' := Resolve(t, d, Acked);
    assert ResolvedAt(t', d) && AckedAt(t', d);
  }

  lemma Concludes(s0: State, s: State, d: Lsn) returns (s': State)
    requires Reaches(s0, s) && ExclInv(s) && d in s.route.overlay && d in s.trk.slots && QuorumAcked(s, d)
    ensures Reaches(s0, s') && ExclInv(s') && s' == s.(trk := Resolve(s.trk, d, Acked))
  {
    hide Reaches, Resolve, QuorumAcked, ExclInv;
    ExclWf(s);
    Goes(s0, s, Conclude(d));
    s' := Next(s, Conclude(d));
  }

  /** The write of the next dLSN, acked by everybody but `x`. */
  ghost predicate Wrote(s: State, s': State, w: Write, x: nat) {
    var d := s.trk.next;
    && s'.pageSize == s.pageSize && s'.writes == s.writes[d := w]
    && s'.trk.base == s.trk.base && s'.trk.next == d + 1 && s'.trk.frontier == d && s'.trk.highestAcked == d
    && s'.trk.slots == s.trk.slots[d := Entry(w.addr, w.len, Acked)]
    && s'.route == RouteAfter(s.route, d, w.addr, w.len, x, s.route.n)
    && OnlyAt(s.reps, s'.reps, d) && (x < |s.reps| ==> s'.reps[x] == s.reps[x])
    && QuorumAcked(s', d)
  }

  lemma WriteDone(s: State, s1: State, s2: State, s': State, w: Write, x: nat)
    requires s.trk.frontier == s.trk.next - 1 && s.trk.next !in s.trk.slots && s.route.n == |s.reps|
    requires Issued(s, s1, w) && LegsIn(s1, s.route, s2, s.trk.next, w, x, s.route.n)
    requires TrkInv(s2.trk) && s' == s2.(trk := Resolve(s2.trk, s.trk.next, Acked)) && QuorumAcked(s2, s.trk.next)
    ensures Wrote(s, s', w, x)
  {
    hide Resolve, TrkInv, OnlyAt, RouteAfter, Quorum, Members;
    NextResolved(s2.trk, s.trk.next);
    assert Acks(s', s.trk.next) == Acks(s2, s.trk.next);
  }

  lemma ConcludeReady(s: State, s1: State, s2: State, w: Write, x: nat)
    requires s.route.n == |s.reps| >= 3 && x <= |s.reps| && Issued(s, s1, w)
    requires LegsIn(s1, s.route, s2, s.trk.next, w, x, s.route.n)
    ensures s.trk.next in s2.route.overlay && s.trk.next in s2.trk.slots && QuorumAcked(s2, s.trk.next)
  {
    AckedByMost(s2, s.trk.next, x);
  }

  lemma WriteOne(s0: State, s: State, w: Write, x: nat) returns (s': State)
    requires Reaches(s0, s) && ExclInv(s) && |s.reps| >= 3 && x <= |s.reps| && s.trk.frontier == s.trk.next - 1
    requires Writable(s.pageSize, w) && forall i :: 0 <= i < |s.reps| ==> s.trk.next !in s.reps[i].journal
    ensures Reaches(s0, s') && ExclInv(s') && Wrote(s, s', w, x)
  {
    hide Reaches, ExclInv, LegsIn, Wrote, QuorumAcked, TrkInv, Writable;
    var d := s.trk.next;
    FreshDlsn(s);
    var s1 := Issue(s0, s, w);
    LegsBegin(s1, s.route, d, w, x);
    FreshDlsn(s1);
    var s2 := LegsArrive(s0, s1, s.route, d, w, x, s.route.n);
    ConcludeReady(s, s1, s2, w, x);
    s' := Concludes(s0, s2, d);
    FreshDlsn(s2);
    WriteDone(s, s1, s2, s', w, x);
  }
}
