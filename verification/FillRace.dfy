/**
 * A retire against the folds, access by access. retire_upto() finds a slot unresolved, has
 * the router note the fill, and only then resolves the slot; its own acks may resolve it in
 * between, and a fold may pass it before the fill is noted. The servers appear only by who
 * holds what.
 */
module FillRace {
  import opened CraftTypes
  import opened Tracker
  import opened Router
  import opened Safety
  import opened Scripted
  import T = TrackerRuns
  import R = RouterRuns
  import RouteMapping
  import Staging

  /** `noting` has the slots a retire has found unresolved and not noted yet, with the leader that filled them. */
  datatype Client = Client(trk: Trk, v: R.View, noting: map<Lsn, nat>)

  datatype Move =
    | Track(t: T.Op)              // reserve, resolve
    | Index(op: R.Op)             // a completion, a report, a region of a fold
    | Look(d: Lsn, leader: nat)   // retire_upto() finds `d` unresolved and not in the verdict list
    | Note(d: Lsn)                // note_filled()

  /** A write is resolved acked only once the router has it durable, and folds aim at the frontier. */
  ghost predicate Can(c: Client, m: Move) {
    match m
    case Track(t) =>
      && T.Allowed(c.trk, t) && !t.RetireUpTo?
      && (t.Settle? && t.oc.Acked? ==> t.d in c.v.r.overlay && Durable(c.v.r, c.v.r.overlay[t.d]))
    case Index(op) =>
      && !op.Fill? && R.Allowed(c.v, op) && (op.Open? ==> op.d in c.trk.slots)
      && (op.Fold? ==> AimsAtMost(op.m, c.trk.frontier))
    case Look(d, leader) =>
      d in c.trk.slots && !ResolvedAt(c.trk, d) && leader < c.v.r.n && (d, leader) in c.v.held
    case Note(d) => d in c.noting
  }

  /** A slot that is not there, or no longer, is not noted. */
  function Noted(r: Route, d: Lsn, leader: nat): (r': Route) {
    if d in r.overlay && r.trunc < d then NoteFilled(r, d, leader) else r
  }

  ghost function Moved(c: Client, m: Move): (c': Client)
    requires Can(c, m)
  {
    match m
    case Track(t) => c.(trk := T.Do(c.trk, t))
    case Index(op) => c.(v := R.Do(c.v, op))
    case Look(d, leader) => c.(noting := c.noting[d := leader])
    case Note(d) => c.(v := c.v.(r := Noted(c.v.r, d, c.noting[d])), noting := c.noting - {d})
  }

  ghost predicate Steps(c: Client, ms: seq<Move>, c': Client)
    decreases |ms|
  {
    if ms == [] then c' == c else Can(c, ms[0]) && Steps(Moved(c, ms[0]), ms[1..], c')
  }

  function Start(n: nat, login: Lsn, held: Holdings): Client {
    Client(ResetAt(login), R.View(Reset(n, login), held), map[])
  }

  // ---------------------------------------------------------------- what holds however late a fill is

  ghost predicate FoldInv(c: Client) {
    && Shape(c.v.r) && TrkInv(c.trk) && c.trk.base == c.v.r.login && FoldsBehind(c.v.r, c.trk.frontier)
    && forall d :: d in c.noting ==> c.noting[d] < c.v.r.n && (d, c.noting[d]) in c.v.held
  }

  lemma IndexKeepsShape(v: R.View, op: R.Op, f: Lsn)
    requires Shape(v.r) && R.Allowed(v, op) && !op.Fill? && FoldsBehind(v.r, f)
    requires op.Fold? ==> AimsAtMost(op.m, f)
    ensures Shape(R.Do(v, op).r) && FoldsBehind(R.Do(v, op).r, f) && v.held <= R.Do(v, op).held
    ensures R.Do(v, op).r.login == v.r.login && R.Do(v, op).r.n == v.r.n
  {
    hide Select, LowestDlsn, ApplyBatch, SortedBatch, Quorum;
    match op
    case Complete(d, i, acked) => CompletionFrame(v.r, d, i, acked);
    case Fold(m) => FoldKeepsShape(v.r, m, f);
    case Open(d, addr, len) => OpenKeepsShape(v.r, d, addr, len);
    case Report(i, c) => ReportKeepsShape(v.r, i, c);
    case _ =>
  }

  lemma ReportKeepsShape(r: Route, i: nat, c: Lsn)
    requires Shape(r) && i < r.n
    ensures Shape(AdvanceSynced(r, i, c))
  {
    var r' := AdvanceSynced(r, i, c);
    forall t | t in r'.ready ensures AllDone(r', t) { assert AllDone(r, t); }
  }

  lemma FoldKeepsShape(r: Route, m: FoldMove, f: Lsn)
    requires Shape(r) && CanFold(r, m) && FoldsBehind(r, f) && AimsAtMost(m, f)
    ensures Shape(FoldNext(r, m)) && FoldsBehind(FoldNext(r, m), f)
    ensures FoldNext(r, m).login == r.login && FoldNext(r, m).n == r.n
  {
    hide Select, LowestDlsn, ApplyBatch, SortedBatch;
    var r' := FoldNext(r, m);
    FoldMoveFrame(r, m);
    if m.Take? || m.Choose? { FoldableIsDone(r, m.t); }
    assert m.Jump? ==> AllDone(r, m.t);
    forall t | t in r'.ready ensures AllDone(r', t) { assert t in r.ready ==> AllDone(r, t); }
  }

  lemma MoveKeeps(c: Client, m: Move)
    requires FoldInv(c) && Can(c, m)
    ensures FoldInv(Moved(c, m))
  {
    hide Shape, TrkInv, R.Do, R.Allowed, T.Do, T.Allowed, NoteFilled, Durable;
    match m
    case Track(t) => T.OpExact(c.trk, t);
    case Index(op) => IndexKeepsShape(c.v, op, c.trk.frontier);
    case Look(d, leader) =>
    case Note(d) => if d in c.v.r.overlay { FilledFrame(c.v.r, d, c.noting[d]); }
  }

  lemma {:induction false} StepsKeep(c: Client, ms: seq<Move>, c': Client)
    requires FoldInv(c) && Steps(c, ms, c')
    ensures FoldInv(c')
    decreases |ms|
  {
    if ms != [] {
      MoveKeeps(c, ms[0]);
      StepsKeep(Moved(c, ms[0]), ms[1..], c');
    }
  }

  lemma StartOk(n: nat, login: Lsn, held: Holdings)
    requires n > 0 && -1 <= login
    ensures FoldInv(Start(n, login, held)) && RouteInv(Start(n, login, held).v.r, held)
  {
    ResetExact(login);
    ResetAgrees(n, login, held);
  }

  // ---------------------------------------------------------------- exactly when the fill precedes the fold

  predicate FoldOnly(ms: seq<Move>) {
    forall k :: 0 <= k < |ms| ==> ms[k].Index? && ms[k].op.Fold?
  }

  /** However the folds go on from here, none of them passes or aims at `d` before the fill is noted. */
  ghost predicate Precedes(c: Client, d: Lsn) {
    forall ms, c' :: FoldOnly(ms) && Steps(c, ms, c') ==> AboveFolds(c'.v.r, d)
  }

  /** The frontier has reached `d` and every leg up to it is in. */
  predicate Passable(c: Client, d: Lsn) {
    d <= c.trk.frontier && AllDone(c.v.r, d)
  }

  lemma NotPassed(c: Client, d: Lsn)
    requires FoldInv(c) && c.trk.base < d && !Passable(c, d)
    ensures AboveFolds(c.v.r, d)
  {
    var r := c.v.r;
    if d <= c.trk.frontier {
      forall t | t in r.ready ensures t < d { assert AllDone(r, t); }
    }
  }

  lemma {:induction false} FoldsKeepBooks(c: Client, ms: seq<Move>, c': Client)
    requires FoldOnly(ms) && Steps(c, ms, c')
    ensures c'.trk == c.trk && c'.v.r.done == c.v.r.done && c'.v.r.login == c.v.r.login
    decreases |ms|
  {
    if ms != [] {
      FoldMoveFrame(c.v.r, ms[0].op.m);
      FoldsKeepBooks(Moved(c, ms[0]), ms[1..], c');
    }
  }

  /** One more region at the end. */
  lemma OneFold(c: Client, m: FoldMove)
    requires Can(c, Index(R.Fold(m)))
    ensures var c' := c.(v := c.v.(r := FoldNext(c.v.r, m)));
      FoldOnly([Index(R.Fold(m))]) && Steps(c, [Index(R.Fold(m))], c')
  {
    assert Steps(Moved(c, Index(R.Fold(m))), [], Moved(c, Index(R.Fold(m))));
  }

  lemma {:induction false} StepsThen(c: Client, a: seq<Move>, m: Client, b: seq<Move>, c': Client)
    requires Steps(c, a, m) && Steps(m, b, c')
    ensures Steps(c, a + b, c')
    decreases |a|
  {
    hide Can, Moved;
    if a == [] {
      assert a + b == b;
    } else {
      StepsThen(Moved(c, a[0]), a[1..], m, b, c');
      assert (a + b)[0] == a[0] && (a + b)[1..] == a[1..] + b;
    }
  }

  /** A slow fold under way can be brought to its end. */
  lemma FinishFold(c: Client) returns (ms: seq<Move>, c': Client)
    ensures FoldOnly(ms) && Steps(c, ms, c') && c'.v.r.flight.None? && c'.trk == c.trk
    ensures c'.v.r.done == c.v.r.done && c'.v.r.login == c.v.r.login
  {
    ms, c' := [], c;
    if c'.v.r.flight.Some? && !c'.v.r.flight.value.applied {
      OneFold(c', Mark);
      ms, c' := [Index(R.Fold(Mark))], c'.(v := c'.v.(r := FoldNext(c'.v.r, Mark)));
    }
    if c'.v.r.flight.Some? {
      OneFold(c', Close);
      StepsThen(c, ms, c', [Index(R.Fold(Close))], c'.(v := c'.v.(r := FoldNext(c'.v.r, Close))));
      ms, c' := ms + [Index(R.Fold(Close))], c'.(v := c'.v.(r := FoldNext(c'.v.r, Close)));
    }
    FoldsKeepBooks(c, ms, c');
  }

  lemma DoneIsFoldable(r: Route, d: Lsn)
    requires AllDone(r, d) && r.login <= r.folded
    ensures Foldable(r, d)
  {
  }

  /** Where `d` is passable, some fold can take it in. */
  lemma PassedThen(c: Client, d: Lsn) returns (ms: seq<Move>, c': Client)
    requires FoldInv(c) && Passable(c, d)
    ensures FoldOnly(ms) && Steps(c, ms, c') && !AboveFolds(c'.v.r, d)
  {
    var a, m := FinishFold(c);
    StepsKeep(c, a, m);
    assert AllDone(m.v.r, d);
    DoneIsFoldable(m.v.r, d);
    var batch := RouteMapping.SomeOrder(Select(m.v.r.pending, d, true));
    var take := Index(R.Fold(Take(d, batch)));
    OneFold(m, Take(d, batch));
    c' := m.(v := m.v.(r := FoldNext(m.v.r, Take(d, batch))));
    ms := a + [take];
    StepsThen(c, a, m, [take], c');
  }

  /**
   * A fill noted now is ahead of every fold, however the folds go on, if and only if the
   * frontier has not reached its dLSN or some leg up to it is still out.
   */
  lemma FillPrecedesExactly(n: nat, login: Lsn, held: Holdings, ms: seq<Move>, c: Client, d: Lsn)
    requires n > 0 && -1 <= login < d && Steps(Start(n, login, held), ms, c)
    ensures Precedes(c, d) <==> !Passable(c, d)
    ensures d in c.trk.slots && !ResolvedAt(c.trk, d) ==> Precedes(c, d)
  {
    StartOk(n, login, held);
    StepsKeep(Start(n, login, held), ms, c);
    BaseStays(Start(n, login, held), ms, c);
    if Passable(c, d) {
      var more, c' := PassedThen(c, d);
    } else {
      forall more, c' | FoldOnly(more) && Steps(c, more, c') ensures AboveFolds(c'.v.r, d) {
        StepsKeep(c, more, c');
        FoldsKeepBooks(c, more, c');
        NotPassed(c', d);
      }
    }
  }

  lemma {:induction false} BaseStays(c: Client, ms: seq<Move>, c': Client)
    requires FoldInv(c) && Steps(c, ms, c')
    ensures c'.trk.base == c.trk.base && c'.v.r.n == c.v.r.n
    decreases |ms|
  {
    if ms != [] {
      MoveKeeps(c, ms[0]);
      MoveBase(c, ms[0]);
      BaseStays(Moved(c, ms[0]), ms[1..], c');
    }
  }

  lemma MoveBase(c: Client, m: Move)
    requires FoldInv(c) && Can(c, m)
    ensures Moved(c, m).trk.base == c.trk.base && Moved(c, m).v.r.n == c.v.r.n
  {
    match m
    case Track(t) => T.OpExact(c.trk, t);
    case Index(op) => IndexKeepsShape(c.v, op, c.trk.frontier);
    case _ =>
  }

  // ---------------------------------------------------------------- what fills in time keep

  /** Every fill is noted while its dLSN is not passable. */
  ghost predicate InTime(c: Client, ms: seq<Move>)
    decreases |ms|
  {
    ms == [] || (Can(c, ms[0]) && (ms[0].Note? ==> !Passable(c, ms[0].d)) && InTime(Moved(c, ms[0]), ms[1..]))
  }

  lemma MoveAgrees(c: Client, m: Move)
    requires FoldInv(c) && RouteInv(c.v.r, c.v.held) && Can(c, m)
    requires m.Note? ==> !Passable(c, m.d)
    ensures RouteInv(Moved(c, m).v.r, Moved(c, m).v.held)
  {
    match m
    case Index(op) => R.OpAgrees(c.v, op);
    case Note(d) =>
      if d in c.v.r.overlay {
        NotPassed(c, d);
        FilledAgrees(c.v.r, c.v.held, d, c.noting[d]);
      }
    case _ =>
  }

  /** As long as every fill is in time the index agrees with who holds what. */
  lemma {:induction false} InTimeAgrees(c: Client, ms: seq<Move>, c': Client)
    requires FoldInv(c) && RouteInv(c.v.r, c.v.held) && Steps(c, ms, c') && InTime(c, ms)
    ensures RouteInv(c'.v.r, c'.v.held)
    decreases |ms|
  {
    hide RouteInv;
    if ms != [] {
      MoveKeeps(c, ms[0]);
      MoveAgrees(c, ms[0]);
      InTimeAgrees(Moved(c, ms[0]), ms[1..], c');
    }
  }

  // ---------------------------------------------------------------- a fill that comes too late

  ghost predicate Runs(c: Client, c': Client) {
    exists ms :: Steps(c, ms, c')
  }

  lemma RunsThen(a: Client, b: Client, c: Client)
    requires Runs(a, b) && Runs(b, c)
    ensures Runs(a, c)
  {
    var x :| Steps(a, x, b);
    var y :| Steps(b, y, c);
    StepsThen(a, x, b, y, c);
  }

  lemma RunsOne(a: Client, b: Client, m: Move)
    requires Runs(a, b) && Can(b, m)
    ensures Runs(a, Moved(b, m))
  {
    var c := Moved(b, m);
    hide Can, Moved;
    assert Steps(c, [], c);
    assert [m][0] == m && [m][1..] == [];
    assert Steps(b, [m], c);
    RunsThen(a, b, c);
  }

  lemma RunsNone(c: Client)
    ensures Runs(c, c)
  {
    assert Steps(c, [], c);
  }

  /** The legs of a freshly opened slot: everybody acks but `x`. */
  lemma {:induction false} LegsRun(c: Client, r: Route, d: Lsn, addr: nat, len: nat, x: nat, j: nat)
    requires c.v.r == OpenSlot(r, d, addr, len) && j <= r.n && r.n >= 3 && x <= r.n
    requires forall i: nat :: i < r.n && i != x ==> (d, i) in c.v.held
    ensures Runs(c, c.(v := c.v.(r := RouteAfter(r, d, addr, len, x, j))))
  {
    hide RouteAfter, RecordCompletion, Runs, Members;
    if j == 0 {
      NothingRecorded(r, d, addr, len, x);
      RunsNone(c);
    } else {
      LegsRun(c, r, d, addr, len, x, j - 1);
      var b := c.(v := c.v.(r := RouteAfter(r, d, addr, len, x, j - 1)));
      LegRecorded(r, d, addr, len, x, j - 1);
      LegFree(r, d, addr, len, x, j - 1);
      RunsOne(c, b, Index(R.Complete(d, j - 1, j - 1 != x)));
    }
  }

  lemma LegFree(r: Route, d: Lsn, addr: nat, len: nat, x: nat, j: nat)
    requires j < r.n
    ensures var o := RouteAfter(r, d, addr, len, x, j);
      o.n == r.n && d in o.overlay && j !in o.overlay[d].completed
  {
  }

  /** The next dLSN is reserved for [addr, addr + len) and its legs are in; nothing is resolved. */
  lemma SlotRun(c: Client, addr: nat, len: nat, x: nat)
    requires FoldInv(c) && c.v.r.n >= 3 && x <= c.v.r.n && c.trk.next !in c.v.r.overlay
    requires forall i: nat :: i < c.v.r.n && i != x ==> (c.trk.next, i) in c.v.held
    ensures var d := c.trk.next;
      Runs(c, c.(trk := Create(Bump(c.trk), d, addr, len),
                 v := c.v.(r := RouteAfter(c.v.r, d, addr, len, x, c.v.r.n))))
  {
    var d := c.trk.next;
    assert TrkInv(c.trk) && d !in c.trk.slots && c.v.r.login < d;
    assert Steps(c, [], c);
    hide Runs, FoldInv, RouteAfter;
    RunsOne(c, c, Track(T.Count));
    var c1 := c.(trk := Bump(c.trk));
    RunsOne(c, c1, Track(T.Publish(d, addr, len)));
    var c2 := c1.(trk := Create(c1.trk, d, addr, len));
    RunsOne(c, c2, Index(R.Open(d, addr, len)));
    var c3 := c2.(v := c2.v.(r := OpenSlot(c.v.r, d, addr, len)));
    LegsRun(c3, c.v.r, d, addr, len, x, c.v.r.n);
    RunsThen(c, c3, c3.(v := c3.v.(r := RouteAfter(c.v.r, d, addr, len, x, c.v.r.n))));
  }

  /** The tracker after the next dLSN was written and acked, with everything before it resolved. */
  ghost predicate AckedNext(t: Trk, t': Trk) {
    TrkInv(t') && t'.base == t.base && t'.next == t.next + 1 && t'.frontier == t.next
  }

  lemma SettleRun(c: Client, t: Trk, addr: nat, len: nat) returns (c': Client)
    requires TrkInv(t) && t.frontier == t.next - 1 && c.trk == Create(Bump(t), t.next, addr, len)
    requires t.next in c.v.r.overlay && Durable(c.v.r, c.v.r.overlay[t.next])
    ensures Runs(c, c') && c' == c.(trk := c'.trk) && AckedNext(t, c'.trk)
  {
    var d := t.next;
    BumpExact(t);
    CreateExact(Bump(t), d, addr, len);
    ResolveExact(c.trk, d, Acked);
    NextResolved(c.trk, d);
    assert Steps(c, [], c);
    hide Runs, Resolve, TrkInv;
    RunsOne(c, c, Track(T.Settle(d, Acked)));
    c' := c.(trk := Resolve(c.trk, d, Acked));
  }

  lemma DurableAfter(r: Route, d: Lsn, addr: nat, len: nat, x: nat)
    requires r.n >= 3 && x <= r.n
    ensures var r' := RouteAfter(r, d, addr, len, x, r.n);
      d in r'.overlay && Durable(r', r'.overlay[d]) && r'.n == r.n
  {
    AllButOne(r.n, x);
  }

  /** A whole write that `x` misses. */
  lemma WriteRun(c: Client, addr: nat, len: nat, x: nat) returns (c': Client)
    requires FoldInv(c) && c.v.r.n >= 3 && x <= c.v.r.n && c.trk.next !in c.v.r.overlay
    requires c.trk.frontier == c.trk.next - 1
    requires forall i: nat :: i < c.v.r.n && i != x ==> (c.trk.next, i) in c.v.held
    ensures Runs(c, c') && FoldInv(c') && AckedNext(c.trk, c'.trk)
    ensures c' == c.(trk := c'.trk, v := c.v.(r := RouteAfter(c.v.r, c.trk.next, addr, len, x, c.v.r.n)))
  {
    var d := c.trk.next;
    SlotRun(c, addr, len, x);
    var m := c.(trk := Create(Bump(c.trk), d, addr, len), v := c.v.(r := RouteAfter(c.v.r, d, addr, len, x, c.v.r.n)));
    DurableAfter(c.v.r, d, addr, len, x);
    hide Runs, RouteAfter, Durable;
    c' := SettleRun(m, c.trk, addr, len);
    RunsThen(c, m, c');
    RunsKeep(c, c');
  }

  lemma RunsKeep(c: Client, c': Client)
    requires FoldInv(c) && Runs(c, c')
    ensures FoldInv(c')
  {
    var ms :| Steps(c, ms, c');
    StepsKeep(c, ms, c');
  }

  /** A slow fold, undisturbed. */
  lemma FoldRun(c: Client, t: Lsn, batch: seq<PendingMiss>)
    requires CanTake(c.v.r, t, batch) && t <= c.trk.frontier
    ensures Runs(c, c.(v := c.v.(r := CloseFold(ApplyTaken(TakeBatch(c.v.r, t, batch))))))
  {
    assert Steps(c, [], c);
    hide Runs, CanTake, Select, LowestDlsn, ApplyBatch;
    RunsOne(c, c, Index(R.Fold(Take(t, batch))));
    var c1 := c.(v := c.v.(r := TakeBatch(c.v.r, t, batch)));
    RunsOne(c, c1, Index(R.Fold(Mark)));
    var c2 := c.(v := c.v.(r := ApplyTaken(c1.v.r)));
    RunsOne(c, c2, Index(R.Fold(Close)));
  }

  /** The router of a session in which nothing has been written and member 1 has reported the login dLSN. */
  ghost predicate Opened(r: Route, n: nat, login: Lsn) {
    && r.n == n >= 3 && r.login == login == r.folded == r.trunc && r.flight.None? && r.ready == {}
    && r.overlay == map[] && r.done == {} && r.pending == [] && r.hint.None?
    && |r.miss| == |r.synced| == n && r.miss[1] == map[] && r.synced[1] >= login
  }

  function MissedBy(n: nat, d: Lsn, i: nat): PendingMiss {
    PendingMiss(d, Members(n) - {i}, 0, 1)
  }

  /** Two writes of byte 0, the first missed by member 0 and the second by member 1, and one of byte 1. */
  function Written(r: Route, login: Lsn): Route {
    var r1 := RouteAfter(r, login + 1, 0, 1, 0, r.n);
    var r2 := RouteAfter(r1, login + 2, 0, 1, 1, r.n);
    RouteAfter(r2, login + 3, 1, 1, r.n, r.n)
  }

  function Folded(r: Route, t: Lsn, batch: seq<PendingMiss>): Route {
    CloseFold(ApplyTaken(TakeBatch(r, t, batch)))
  }

  lemma WrittenIs(r: Route, n: nat, login: Lsn)
    requires Opened(r, n, login)
    ensures var (r', x, y) := (Written(r, login), MissedBy(n, login + 1, 0), MissedBy(n, login + 2, 1));
      && r' == r.(overlay := r'.overlay, done := r'.done, pending := [x, y], hint := Some(login + 1))
      && (forall d :: d in r'.done <==> login < d <= login + 3)
      && r'.overlay == map[login + 1 := SlotAfter(0, 1, 0, n), login + 2 := SlotAfter(0, 1, 1, n),
                           login + 3 := SlotAfter(1, 1, n, n)]
  {
    hide Members;
    assert [] + [MissedBy(n, login + 1, 0)] == [MissedBy(n, login + 1, 0)];
    assert [MissedBy(n, login + 1, 0)] + [MissedBy(n, login + 2, 1)]
        == [MissedBy(n, login + 1, 0), MissedBy(n, login + 2, 1)];
  }

  /** The first fold marks the second write on member 1. */
  lemma FirstFold(r: Route, n: nat, login: Lsn, x: PendingMiss, y: PendingMiss)
    requires n >= 3 && r.n == n && r.folded == login && r.flight.None? && r.pending == [x, y]
    requires x == MissedBy(n, login + 1, 0) && y == MissedBy(n, login + 2, 1)
    requires forall d :: d in r.done <==> login < d <= login + 3
    ensures CanTake(r, login + 2, [x, y])
    ensures var r' := Folded(r, login + 2, [x, y]);
      && r' == r.(miss := ApplyBatch(r.miss, [x, y]), folded := login + 2, pending := [], hint := None)
  {
    Staging.TwoDue(x, y, login + 2);
    hide ApplyBatch, Select, Members;
  }

  /** The second fold takes the late fill of the first write and erases that mark. */
  lemma SecondFold(r: Route, n: nat, login: Lsn, x: PendingMiss)
    requires n >= 3 && r.n == n && r.folded == login + 2 && r.flight.None? && r.pending == [x] && x.dlsn == login + 1
    requires forall d :: d in r.done <==> login < d <= login + 3
    ensures CanTake(r, login + 3, [x])
    ensures var r' := Folded(r, login + 3, [x]);
      && r' == r.(miss := ApplyBatch(r.miss, [x]), folded := login + 3, pending := [], hint := None)
  {
    Staging.OneDue(x, login + 3);
    hide ApplyBatch, Select, Members;
  }

  lemma LateNote(r: Route, n: nat, d: Lsn)
    requires n >= 3 && r.n == n && r.pending == [] && r.hint.None? && r.trunc < d
    requires d in r.overlay && r.overlay[d] == SlotAfter(0, 1, 0, n)
    ensures Noted(r, d, 2) == r.(overlay := r.overlay[d := SlotAfter(0, 1, 0, n).(verdict := true)],
                                 pending := [MissedBy(n, d, 0)], hint := Some(d))
  {
    AllButOne(n, 0);
    assert (Members(n) - {0}) + {2} == Members(n) - {0};
    assert [] + [MissedBy(n, d, 0)] == [MissedBy(n, d, 0)];
    hide Members;
  }

  lemma BatchOfTwo(miss: seq<MissMap>, x: PendingMiss, y: PendingMiss)
    ensures ApplyBatch(miss, [x, y]) == ApplyMiss(ApplyMiss(miss, x), y)
  {
    hide ApplyMiss;
    Staging.BatchOfOne(miss, x);
    assert [x, y][..1] == [x];
  }

  /** Member 1 misses the second write, and the maps end up not showing it. */
  lemma MarkLost(miss: seq<MissMap>, n: nat, login: Lsn)
    requires |miss| == n >= 3 && miss[1] == map[]
    ensures var (x, y) := (MissedBy(n, login + 1, 0), MissedBy(n, login + 2, 1));
      |ApplyBatch(miss, [x, y])| == n && ApplyBatch(ApplyBatch(miss, [x, y]), [x])[1] == map[]
  {
    var (x, y) := (MissedBy(n, login + 1, 0), MissedBy(n, login + 2, 1));
    assert 1 in x.held && 1 !in y.held;
    hide ApplyMiss, ApplyBatch;
    Staging.BatchOfOne(ApplyBatch(miss, [x, y]), x);
    BatchOfTwo(miss, x, y);
    var one, two := ApplyMiss(miss, x), ApplyMiss(ApplyMiss(miss, x), y);
    forall b: nat ensures b !in ApplyMiss(two, x)[1] {
      ApplyMissAt(miss, x, 1, b);
      ApplyMissAt(one, y, 1, b);
      ApplyMissAt(two, x, 1, b);
    }
    assert ApplyMiss(two, x)[1] == map[];
  }

  /** The end of the run: eligible() lets member 1 through, and the winner is the write it misses. */
  lemma LateYes(r: Route, n: nat, login: Lsn, hmax: Lsn)
    requires n >= 3 && r.n == n && r.login == login && r.folded == login + 3
    requires |r.miss| == |r.synced| == n && r.miss[1] == map[] && r.synced[1] >= login
    requires r.overlay == map[login + 1 := SlotAfter(0, 1, 0, n).(verdict := true), login + 2 := SlotAfter(0, 1, 1, n),
                              login + 3 := SlotAfter(1, 1, n, n)]
    ensures Eligible(r, 1, 0, 1, hmax) && Winner(r, login + 3, 0) == login + 2
    ensures |r.overlay[login + 2].holders| >= Quorum(n)
  {
    AllButOne(n, 1);
    hide Members, Quorum;
    assert DurableOn(r, login + 2, 0) && !DurableOn(r, login + 3, 0);
  }

  /** Who holds the three writes. */
  function HeldBy(n: nat, login: Lsn): (held: Holdings)
    ensures forall d: Lsn, i: nat :: (d, i) in held <==>
      login < d <= login + 3 && i < n && !(d == login + 1 && i == 0) && !(d == login + 2 && i == 1)
  {
    set d, i | d in LsnRange(login + 1, login + 3) && i in Members(n)
               && !(d == login + 1 && i == 0) && !(d == login + 2 && i == 1) :: (d, i)
  }

  lemma Opens(n: nat, login: Lsn, held: Holdings) returns (c: Client)
    requires n >= 3 && -1 <= login
    ensures Runs(Start(n, login, held), c) && Opened(c.v.r, n, login) && FoldInv(c)
    ensures c == Start(n, login, held).(v := R.View(c.v.r, held))
  {
    var s := Start(n, login, held);
    StartOk(n, login, held);
    RunsNone(s);
    hide Runs;
    RunsOne(s, s, Index(R.Report(1, login)));
    c := s.(v := R.View(AdvanceSynced(s.v.r, 1, login), held));
    RunsKeep(s, c);
  }

  lemma ResetIs(login: Lsn, c: Client)
    requires FoldInv(c) && c.trk == ResetAt(login)
    ensures TrkInv(c.trk)
  {
  }

  /** The first write, which a retire finds unresolved before its own acks resolve it. */
  lemma LookedAt(c: Client, n: nat, login: Lsn) returns (c': Client)
    requires FoldInv(c) && Opened(c.v.r, n, login) && c == Start(n, login, HeldBy(n, login)).(v := c.v)
    requires c.v.held == HeldBy(n, login)
    ensures Runs(c, c') && FoldInv(c') && c'.noting == map[login + 1 := 2] && AckedNext(c.trk, c'.trk)
    ensures c'.v == c.v.(r := RouteAfter(c.v.r, login + 1, 0, 1, 0, n))
  {
    hide Runs, RouteAfter, Durable, HeldBy, FoldInv, TrkInv;
    var r, d := c.v.r, login + 1;
    SlotRun(c, 0, 1, 0);
    DurableAfter(r, d, 0, 1, 0);
    ResetIs(login, c);
    var m := c.(trk := Create(Bump(c.trk), d, 0, 1), v := c.v.(r := RouteAfter(r, d, 0, 1, 0, n)));
    RunsOne(c, m, Look(d, 2));
    var k := m.(noting := map[d := 2]);
    assert map[][d := 2] == map[d := 2];
    c' := SettleRun(k, c.trk, 0, 1);
    RunsThen(c, k, c');
    RunsKeep(c, c');
  }

  lemma NextFree(r: Route, n: nat, login: Lsn)
    requires Opened(r, n, login)
    ensures var r1 := RouteAfter(r, login + 1, 0, 1, 0, n); var r2 := RouteAfter(r1, login + 2, 0, 1, 1, n);
      r1.n == r2.n == n && login + 2 !in r1.overlay && login + 3 !in r2.overlay
  {
  }

  /** The other two writes. */
  lemma WritesRun(c: Client, r: Route, n: nat, login: Lsn) returns (c': Client)
    requires FoldInv(c) && Opened(r, n, login) && c.v == R.View(RouteAfter(r, login + 1, 0, 1, 0, n), HeldBy(n, login))
    requires c.trk.next == login + 2 && c.trk.frontier == login + 1
    ensures Runs(c, c') && FoldInv(c') && c'.trk.frontier == login + 3 && c'.noting == c.noting
    ensures c'.v == c.v.(r := Written(r, login))
  {
    hide Runs, RouteAfter, HeldBy, FoldInv, TrkInv;
    NextFree(r, n, login);
    var m := WriteRun(c, 0, 1, 1);
    c' := WriteRun(m, 1, 1, n);
    RunsThen(c, m, c');
  }

  /** The router when the late fill has been noted. */
  function NotedLate(r: Route, n: nat, login: Lsn): Route {
    Noted(Folded(Written(r, login), login + 2, [MissedBy(n, login + 1, 0), MissedBy(n, login + 2, 1)]), login + 1, 2)
  }

  lemma NotedLateIs(r: Route, n: nat, login: Lsn)
    requires Opened(r, n, login)
    ensures var (w, x, y) := (Written(r, login), MissedBy(n, login + 1, 0), MissedBy(n, login + 2, 1));
      var r' := NotedLate(r, n, login);
      && CanTake(w, login + 2, [x, y])
      && r' == r.(overlay := r'.overlay, done := r'.done, pending := [x], hint := Some(login + 1),
                  miss := ApplyBatch(r.miss, [x, y]), folded := login + 2)
      && (forall d :: d in r'.done <==> login < d <= login + 3)
      && r'.overlay == map[login + 1 := SlotAfter(0, 1, 0, n).(verdict := true), login + 2 := SlotAfter(0, 1, 1, n),
                           login + 3 := SlotAfter(1, 1, n, n)]
  {
    hide Written, MissedBy, SlotAfter, ApplyBatch, CanTake, Folded, Noted;
    var w, x, y := Written(r, login), MissedBy(n, login + 1, 0), MissedBy(n, login + 2, 1);
    WrittenIs(r, n, login);
    FirstFold(w, n, login, x, y);
    LateNote(Folded(w, login + 2, [x, y]), n, login + 1);
    assert w.overlay[login + 1 := SlotAfter(0, 1, 0, n).(verdict := true)]
        == map[login + 1 := SlotAfter(0, 1, 0, n).(verdict := true), login + 2 := SlotAfter(0, 1, 1, n),
               login + 3 := SlotAfter(1, 1, n, n)];
  }

  lemma EndIs(r: Route, n: nat, login: Lsn, hmax: Lsn)
    requires Opened(r, n, login)
    ensures var (s, x) := (NotedLate(r, n, login), MissedBy(n, login + 1, 0));
      && CanTake(s, login + 3, [x])
      && var r' := Folded(s, login + 3, [x]);
         && r'.n == n && |r'.miss| == |r'.synced| == n && r'.flight.None? && r'.folded == login + 3
         && Eligible(r', 1, 0, 1, hmax) && Winner(r', login + 3, 0) == login + 2
         && login + 2 in r'.overlay && |r'.overlay[login + 2].holders| >= Quorum(n)
  {
    hide Written, MissedBy, SlotAfter, ApplyBatch, CanTake, Folded, NotedLate, Eligible, Winner, Quorum;
    var s, x := NotedLate(r, n, login), MissedBy(n, login + 1, 0);
    NotedLateIs(r, n, login);
    MissDlsn(n, login + 1, 0);
    SecondFold(s, n, login, x);
    MarkLost(r.miss, n, login);
    LateYes(Folded(s, login + 3, [x]), n, login, hmax);
  }

  lemma MissDlsn(n: nat, d: Lsn, i: nat)
    ensures MissedBy(n, d, i).dlsn == d
  {
  }

  /** Both folds, with the fill noted between them. */
  lemma FoldsRun(c: Client, r: Route, n: nat, login: Lsn) returns (c': Client)
    requires Opened(r, n, login) && c.v == R.View(Written(r, login), HeldBy(n, login))
    requires c.trk.frontier == login + 3 && c.noting == map[login + 1 := 2]
    ensures Runs(c, c') && c'.trk == c.trk && c'.v.held == c.v.held
    ensures c'.v.r == Folded(NotedLate(r, n, login), login + 3, [MissedBy(n, login + 1, 0)])
  {
    hide Runs, HeldBy, Written, MissedBy, CanTake, Folded, Noted, Opened, Eligible, Winner, Quorum, ApplyBatch;
    hide SlotAfter, R.Allowed, R.Do, T.Allowed, T.Do;
    var x, y, d := MissedBy(n, login + 1, 0), MissedBy(n, login + 2, 1), login + 1;
    NotedLateIs(r, n, login);
    EndIs(r, n, login, 0);
    FoldsAs(c, login + 2, [x, y]);
    var c2 := c.(v := c.v.(r := Folded(c.v.r, login + 2, [x, y])));
    RunsOne(c, c2, Note(d));
    var c3 := c2.(v := c2.v.(r := NotedLate(r, n, login)), noting := c2.noting - {d});
    FoldsAs(c3, login + 3, [x]);
    c' := c3.(v := c3.v.(r := Folded(c3.v.r, login + 3, [x])));
    RunsThen(c, c3, c');
  }

  lemma FoldsAs(c: Client, t: Lsn, batch: seq<PendingMiss>)
    requires CanTake(c.v.r, t, batch) && t <= c.trk.frontier
    ensures Runs(c, c.(v := c.v.(r := Folded(c.v.r, t, batch))))
  {
    FoldRun(c, t, batch);
  }

  /**
   * A fill noted after the fold has passed its dLSN does lose an acked write. A retire finds
   * the first write unresolved; its own acks resolve it, and it is folded together with a
   * second write on the same byte that member 1 misses; the late fill, folded next, erases
   * the mark of that miss. With no fold under way and the fold at the horizon, eligible()
   * lets member 1 through.
   */
  lemma LateFill(n: nat, login: Lsn, hmax: Lsn) returns (held: Holdings, c: Client)
    requires n >= 3 && -1 <= login
    ensures Runs(Start(n, login, held), c) && c.v.held == held
    ensures c.v.r.flight.None? && c.v.r.folded == c.trk.frontier == login + 3
    ensures c.v.r.n == |c.v.r.miss| == |c.v.r.synced| == n && Eligible(c.v.r, 1, 0, 1, hmax)
    ensures Winner(c.v.r, login + 3, 0) == login + 2 && (login + 2, 1) !in held
    ensures login + 2 in c.v.r.overlay && |c.v.r.overlay[login + 2].holders| >= Quorum(n)
  {
    held := HeldBy(n, login);
    assert (login + 2, 1) !in held;
    hide Runs, HeldBy, FoldInv, Eligible, Winner, Quorum, Written, RouteAfter, TrkInv, Folded, NotedLate, Opened;
    var a := Opens(n, login, held);
    var b := LookedAt(a, n, login);
    var m := WritesRun(b, a.v.r, n, login);
    c := FoldsRun(m, a.v.r, n, login);
    EndIs(a.v.r, n, login, hmax);
    RunsThen(Start(n, login, held), a, b);
    RunsThen(Start(n, login, held), b, m);
    RunsThen(Start(n, login, held), m, c);
  }
}
