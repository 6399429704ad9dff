/**
 * Sessions staged slot by slot and fold by fold. Scripted writes go to block 0 and are
 * missed by the member the script names; the others go to block 1 and miss nobody.
 */
module Staging {
  import opened CraftTypes
  import opened Replica
  import opened Tracker
  import opened Router
  import opened Cluster
  import opened Protocol
  import opened Exclusion
  import opened Runs
  import opened SafetyRound
  import opened ReadSafety
  import opened Scripted

  /** Who misses which write of block 0, from the login `s0` on; each of them writes `data`. */
  datatype Play = Play(s0: State, script: map<Lsn, nat>, data: seq<u8>) {
    function Login(): Lsn { s0.trk.base }

    function N(): nat { |s0.reps| }

    /** The member under suspicion, proved up to the login dLSN. */
    function Victim(): nat { s0.anchor }

    function Misser(d: Lsn): nat { if d in script then script[d] else N() }

    function WriteOf(d: Lsn): Write {
      if d in script then Write(0, s0.pageSize, Some(data)) else Write(s0.pageSize, s0.pageSize, None)
    }

    function MissOf(d: Lsn): PendingMiss
      requires d in script
    {
      PendingMiss(d, Members(N()) - {script[d]}, 0, s0.pageSize)
    }

    /** What the slots of (lo, hi] queue. */
    function Misses(lo: Lsn, hi: Lsn): (q: seq<PendingMiss>)
      decreases hi - lo
    {
      if hi <= lo then [] else Misses(lo, hi - 1) + (if hi in script then [MissOf(hi)] else [])
    }
  }

  ghost predicate PlayOk(g: Play) {
    && FreshLogin(g.s0) && g.N() >= 3 && |g.data| == g.s0.pageSize
    && forall d :: d in g.script ==> g.script[d] < g.N()
  }

  // ---------------------------------------------------------------- a scene

  /** Everything up to `k` is issued and acked. */
  ghost predicate Tracked(g: Play, s: State, k: Lsn) {
    && s.trk.base == g.Login() && s.trk.next == k + 1 && s.trk.frontier == k && s.trk.highestAcked == k
    && (forall d :: d in s.trk.slots <==> g.Login() < d <= k)
    && (forall d :: g.Login() < d <= k ==> s.trk.slots[d] == Entry(g.WriteOf(d).addr, g.WriteOf(d).len, Acked))
    && (forall d :: g.Login() < d <= k ==> d in s.writes && s.writes[d] == g.WriteOf(d))
  }

  function SlotOn(g: Play, d: Lsn): RouteSlot {
    SlotAfter(g.WriteOf(d).addr, g.WriteOf(d).len, g.Misser(d), g.N())
  }

  ghost predicate Indexed(g: Play, r: Route, k: Lsn) {
    && r.n == g.N() && r.login == g.Login() && r.done == LsnRange(g.Login() + 1, k)
    && (forall d :: d in r.overlay <==> g.Login() < d <= k)
    && (forall d :: g.Login() < d <= k ==> r.overlay[d] == SlotOn(g, d))
  }

  /** The victim holds none of what it misses and has applied nothing of this session. */
  ghost predicate Stored(g: Play, s: State, k: Lsn) {
    && |s.reps| == g.N() && g.Victim() < g.N() && s.pageSize == g.s0.pageSize
    && (forall i, d :: 0 <= i < |s.reps| && k < d ==> d !in s.reps[i].journal)
    && (forall d :: d in g.script && g.Login() < d && g.script[d] == g.Victim() ==> d !in s.reps[g.Victim()].journal)
    && s.reps[g.Victim()].commit == g.Login()
  }

  ghost predicate Proved(g: Play, r: Route) {
    |r.miss| == |r.synced| == g.N() && g.Victim() < g.N() && r.synced[g.Victim()] >= g.Login()
  }

  /** Folded up to `f` with `q` queued, no fold under way and nothing truncated. */
  ghost predicate AtFold(g: Play, r: Route, f: Lsn, q: seq<PendingMiss>) {
    && r.pending == q && r.hint == LowestDlsn(q) && r.folded == f && r.flight.None? && r.ready == {}
    && r.trunc == g.Login() && Proved(g, r)
  }

  ghost predicate Played(g: Play, s: State, k: Lsn) {
    Reaches(g.s0, s) && ExclInv(s) && Tracked(g, s, k) && Indexed(g, s.route, k) && Stored(g, s, k)
  }

  ghost predicate Scene(g: Play, s: State, k: Lsn, f: Lsn, q: seq<PendingMiss>) {
    Played(g, s, k) && AtFold(g, s.route, f, q)
  }

  // ---------------------------------------------------------------- the opening

  /** The victim reports the login dLSN. */
  lemma Opening(g: Play) returns (s: State)
    requires PlayOk(g)
    ensures Scene(g, s, g.Login(), g.Login(), []) && forall i :: 0 <= i < g.N() ==> s.route.miss[i] == map[]
  {
    hide ExclInv, Reaches, FreshMember, Wf, Stored, LowestSynced;
    var m := g.Victim();
    FreshExcl(g.s0);
    ReachesSelf(g.s0);
    ExclWf(g.s0);
    NothingYet(g);
    Goes(g.s0, g.s0, Heard(m, g.Login()));
    s := g.s0.(route := AdvanceSynced(g.s0.route, m, g.Login()));
    StoredSame(g, g.s0, s, g.Login());
  }

  lemma StoredSame(g: Play, s: State, s': State, k: Lsn)
    requires Stored(g, s, k) && s'.reps == s.reps && s'.pageSize == s.pageSize
    ensures Stored(g, s', k)
  {
  }

  lemma NothingYet(g: Play)
    requires PlayOk(g)
    ensures Stored(g, g.s0, g.Login())
  {
    forall i, d | 0 <= i < |g.s0.reps| && g.Login() < d ensures d !in g.s0.reps[i].journal {
      assert FreshMember(g.s0, g.s0.reps[i]);
    }
  }

  // ---------------------------------------------------------------- the next slot

  lemma TrackedNext(g: Play, s: State, s': State, k: Lsn)
    requires Tracked(g, s, k) && g.Login() <= k && Wrote(s, s', g.WriteOf(k + 1), g.Misser(k + 1))
    ensures Tracked(g, s', k + 1)
  {
    hide RouteAfter, OnlyAt, QuorumAcked;
  }

  lemma StoredNext(g: Play, s: State, s': State, k: Lsn)
    requires Stored(g, s, k) && s.trk.next == k + 1 && g.Login() <= k
    requires Wrote(s, s', g.WriteOf(k + 1), g.Misser(k + 1))
    ensures Stored(g, s', k + 1)
  {
    var m := g.Victim();
    hide RouteAfter, QuorumAcked;
    assert OnlyJournal(s.reps[m], s'.reps[m]);
    forall i, d | 0 <= i < |s'.reps| && k + 1 < d ensures d !in s'.reps[i].journal {
      assert Untouched(s.reps[i], s'.reps[i], d);
    }
    forall d | d in g.script && g.Login() < d && g.script[d] == m ensures d !in s'.reps[m].journal {
      if d != k + 1 { assert Untouched(s.reps[m], s'.reps[m], d); }
    }
  }

  lemma IndexedNext(g: Play, r: Route, k: Lsn)
    requires Indexed(g, r, k) && g.Login() <= k && r.n == g.N()
    ensures Indexed(g, RouteAfter(r, k + 1, g.WriteOf(k + 1).addr, g.WriteOf(k + 1).len, g.Misser(k + 1), r.n), k + 1)
  {
    hide SlotAfter;
    assert LsnRange(g.Login() + 1, k + 1) == LsnRange(g.Login() + 1, k) + {k + 1};
  }

  lemma OneStepMisses(g: Play, k: Lsn)
    ensures g.Misses(k, k + 1) == if k + 1 in g.script then [g.MissOf(k + 1)] else []
  {
    assert g.Misses(k, k) == [];
  }

  lemma LowestNext(q: seq<PendingMiss>, e: PendingMiss)
    ensures LowestDlsn(q + [e]) ==
      if LowestDlsn(q).None? then Some(e.dlsn) else Some(Min(LowestDlsn(q).value, e.dlsn))
  {
    assert (q + [e])[..|q|] == q;
  }

  lemma ProvedSame(g: Play, r: Route, r': Route)
    requires Proved(g, r) && r'.miss == r.miss && r'.synced == r.synced
    ensures Proved(g, r')
  {
  }

  lemma QueuedNext(g: Play, r: Route, k: Lsn, f: Lsn, q: seq<PendingMiss>)
    requires AtFold(g, r, f, q) && r.n == g.N() && forall d :: d in g.script ==> g.script[d] < g.N()
    ensures AtFold(g, RouteAfter(r, k + 1, g.WriteOf(k + 1).addr, g.WriteOf(k + 1).len, g.Misser(k + 1), r.n), f,
                   q + g.Misses(k, k + 1))
  {
    hide Members, LowestDlsn, Proved;
    OneStepMisses(g, k);
    if k + 1 in g.script {
      LowestNext(q, g.MissOf(k + 1));
    } else {
      assert q + [] == q;
    }
    hide SlotAfter;
    assert Proved(g, r);
    ProvedSame(g, r, RouteAfter(r, k + 1, g.WriteOf(k + 1).addr, g.WriteOf(k + 1).len, g.Misser(k + 1), r.n));
  }

  lemma ScenePlays(g: Play, s: State, k: Lsn, f: Lsn, q: seq<PendingMiss>) returns (s': State)
    requires PlayOk(g) && Scene(g, s, k, f, q) && g.Login() <= k
    ensures Reaches(s, s') && Scene(g, s', k + 1, f, q + g.Misses(k, k + 1)) && s'.route.miss == s.route.miss
  {
    var w, x := g.WriteOf(k + 1), g.Misser(k + 1);
    assert Writable(s.pageSize, w) && x <= |s.reps| by { WritesFit(g, k + 1); }
    assert s.trk.frontier == s.trk.next - 1 && s.trk.next == k + 1;
    assert s.route.n == g.N() == |s.reps|;
    ReachesSelf(s);
    hide ExclInv, Reaches, FreshLogin, Wrote, Writable;
    s' := WriteOne(s, s, w, x);
    TrackedNext(g, s, s', k);
    StoredNext(g, s, s', k);
    IndexedNext(g, s.route, k);
    QueuedNext(g, s.route, k, f, q);
    WroteRoute(s, s', w, x);
    hide Tracked, Indexed, Stored, AtFold;
    ReachesOn(g.s0, s, s');
  }

  lemma WritesFit(g: Play, d: Lsn)
    requires PlayOk(g)
    ensures Writable(g.s0.pageSize, g.WriteOf(d)) && g.Misser(d) <= g.N()
  {
    assert Aligned(g.s0.pageSize, 0, g.s0.pageSize) && Aligned(g.s0.pageSize, g.s0.pageSize, g.s0.pageSize);
  }

  lemma WroteRoute(s: State, s': State, w: Write, x: nat)
    requires Wrote(s, s', w, x)
    ensures s'.route == RouteAfter(s.route, s.trk.next, w.addr, w.len, x, s.route.n) && s'.route.miss == s.route.miss
  {
  }

  lemma {:induction false} MissesSplit(g: Play, lo: Lsn, mid: Lsn, hi: Lsn)
    requires lo <= mid <= hi
    ensures g.Misses(lo, mid) + g.Misses(mid, hi) == g.Misses(lo, hi)
    decreases hi - mid
  {
    if mid < hi { MissesSplit(g, lo, mid, hi - 1); }
  }

  /** The slots up to `k'`. */
  lemma {:induction false} SceneTo(g: Play, s: State, k: Lsn, f: Lsn, q: seq<PendingMiss>, k': Lsn) returns (s': State)
    requires PlayOk(g) && Scene(g, s, k, f, q) && g.Login() <= k <= k'
    ensures Reaches(s, s') && Scene(g, s', k', f, q + g.Misses(k, k')) && s'.route.miss == s.route.miss
    decreases k' - k
  {
    hide PlayOk, Scene, Reaches;
    if k == k' {
      s' := s;
      ReachesSelf(s);
      assert q + g.Misses(k, k) == q;
    } else {
      var m := SceneTo(g, s, k, f, q, k' - 1);
      s' := ScenePlays(g, m, k' - 1, f, q + g.Misses(k, k' - 1));
      ReachesOn(s, m, s');
      MissesSplit(g, k, k' - 1, k');
      assert q + g.Misses(k, k' - 1) + g.Misses(k' - 1, k') == q + (g.Misses(k, k' - 1) + g.Misses(k' - 1, k'));
    }
  }

  // ---------------------------------------------------------------- folds

  /** Steps of the router that leave the slots alone leave the session as it was played. */
  lemma StillPlayed(g: Play, s: State, r: Route, k: Lsn)
    requires Played(g, s, k) && Reaches(g.s0, s.(route := r)) && ExclInv(s.(route := r))
    requires r.n == s.route.n && r.login == s.route.login && r.done == s.route.done && r.overlay == s.route.overlay
    ensures Played(g, s.(route := r), k)
  {
    hide ExclInv, Reaches, SlotOn;
  }

  /** One region of a fold. */
  lemma Folds(g: Play, s: State, k: Lsn, m: FoldMove) returns (s': State)
    requires Played(g, s, k) && CanFold(s.route, m) && AimsAtMost(m, k)
    ensures s' == s.(route := FoldNext(s.route, m)) && Reaches(s, s') && Played(g, s', k)
  {
    hide ExclInv, Reaches, CanFold, FoldNext, Indexed, Stored, Wf;
    ExclWf(s);
    ReachesSelf(s);
    Goes(s, s, Fold(m));
    s' := Next(s, Fold(m));
    ReachesOn(g.s0, s, s');
    FoldMoveFrame(s.route, m);
    StillPlayed(g, s, s'.route, k);
  }

  /** The fast path, undisturbed. */
  lemma SceneFast(g: Play, s: State, k: Lsn, f: Lsn, q: seq<PendingMiss>, t: Lsn) returns (s': State)
    requires Scene(g, s, k, f, q) && g.Login() <= f <= t <= k
    requires LowestDlsn(q).None? || LowestDlsn(q).value > t
    ensures Reaches(s, s') && Scene(g, s', k, t, q) && s'.route.miss == s.route.miss
  {
    hide Played, Reaches, LowestDlsn, Foldable;
    FoldableScene(g, s, k, f, t);
    var u := Folds(g, s, k, Choose(t));
    s' := Folds(g, u, k, Jump(t));
    ReachesOn(s, u, s');
  }

  lemma FoldableScene(g: Play, s: State, k: Lsn, f: Lsn, t: Lsn)
    requires Played(g, s, k) && s.route.folded == f && g.Login() <= f <= t <= k
    ensures Foldable(s.route, t)
  {
  }

  lemma TakeReady(g: Play, s: State, k: Lsn, f: Lsn, q: seq<PendingMiss>, t: Lsn, batch: seq<PendingMiss>)
    requires Scene(g, s, k, f, q) && g.Login() <= f <= t <= k
    requires Select(q, t, true) == batch && Ascending(batch)
    ensures CanTake(s.route, t, batch)
  {
    FoldableScene(g, s, k, f, t);
  }

  /** A slow fold up to the moment its batch is in the maps. */
  lemma SceneApply(g: Play, s: State, k: Lsn, f: Lsn, q: seq<PendingMiss>, t: Lsn, batch: seq<PendingMiss>)
    returns (s': State)
    requires Scene(g, s, k, f, q) && g.Login() <= f <= t <= k
    requires Select(q, t, true) == batch && Ascending(batch)
    ensures Reaches(s, s') && Played(g, s', k) && s'.route == ApplyTaken(TakeBatch(s.route, t, batch))
  {
    TakeReady(g, s, k, f, q, t, batch);
    hide Scene, Played, Reaches, ApplyBatch, Select, LowestDlsn, CanTake, Ascending;
    ScenePlayed(g, s, k, f, q);
    var u := Folds(g, s, k, Take(t, batch));
    s' := Folds(g, u, k, Mark);
    ReachesOn(s, u, s');
  }

  lemma ScenePlayed(g: Play, s: State, k: Lsn, f: Lsn, q: seq<PendingMiss>)
    requires Scene(g, s, k, f, q)
    ensures Played(g, s, k) && AtFold(g, s.route, f, q)
  {
  }

  /** A whole slow fold. */
  lemma SceneSlow(g: Play, s: State, k: Lsn, f: Lsn, q: seq<PendingMiss>, t: Lsn,
                  batch: seq<PendingMiss>, keep: seq<PendingMiss>) returns (s': State)
    requires Scene(g, s, k, f, q) && g.Login() <= f <= t <= k
    requires Select(q, t, true) == batch && Ascending(batch) && Select(q, t, false) == keep
    ensures Reaches(s, s') && Scene(g, s', k, t, keep) && s'.route.miss == ApplyBatch(s.route.miss, batch)
  {
    hide Played, Reaches, ApplyBatch, Select, LowestDlsn, Ascending;
    var u := SceneApply(g, s, k, f, q, t, batch);
    s' := Folds(g, u, k, Close);
    ReachesOn(s, u, s');
  }

  /** Slots at or below the fold are dropped. */
  lemma SceneForgets(g: Play, s: State, k: Lsn, f: Lsn, q: seq<PendingMiss>) returns (s': State)
    requires Scene(g, s, k, f, q) && f - g.Login() >= TRUNC_BATCH
    ensures Reaches(s, s') && Played(g, s', k) && s'.route == s.route.(trunc := f)
  {
    hide Played, Reaches, LowestDlsn;
    s' := Folds(g, s, k, Forget(f));
  }

  // ---------------------------------------------------------------- what the queue and the maps become

  lemma {:induction false} NoMisses(g: Play, lo: Lsn, hi: Lsn)
    requires forall d :: d in g.script ==> !(lo < d <= hi)
    ensures g.Misses(lo, hi) == []
    decreases hi - lo
  {
    if lo < hi { NoMisses(g, lo, hi - 1); }
  }

  lemma OneMiss(g: Play, lo: Lsn, x: Lsn, hi: Lsn)
    requires lo < x <= hi && x in g.script && forall d :: d in g.script && lo < d <= hi ==> d == x
    ensures g.Misses(lo, hi) == [g.MissOf(x)]
  {
    NoMisses(g, lo, x - 1);
    NoMisses(g, x, hi);
    MissesSplit(g, lo, x, hi);
  }

  lemma OneDue(x: PendingMiss, t: Lsn)
    requires x.dlsn <= t
    ensures Select([x], t, true) == [x] && Select([x], t, false) == [] && LowestDlsn([x]) == Some(x.dlsn)
    ensures Ascending([x])
  {
    assert [x][..0] == [];
  }

  lemma SelectNext(q: seq<PendingMiss>, e: PendingMiss, t: Lsn, due: bool)
    ensures Select(q + [e], t, due) == if (e.dlsn <= t) == due then Select(q, t, due) + [e] else Select(q, t, due)
  {
    assert (q + [e])[..|q|] == q;
  }

  lemma TwoDue(x: PendingMiss, y: PendingMiss, t: Lsn)
    requires x.dlsn <= t
    ensures Select([x, y], t, true) == if y.dlsn <= t then [x, y] else [x]
    ensures Select([x, y], t, false) == if y.dlsn <= t then [] else [y]
    ensures Ascending([x]) && (x.dlsn <= y.dlsn ==> Ascending([x, y]))
  {
    hide Select, LowestDlsn;
    OneDue(x, t);
    SelectNext([x], y, t, true);
    SelectNext([x], y, t, false);
    assert [x] + [y] == [x, y] && [] + [y] == [y];
  }

  lemma BatchOfOne(miss: seq<MissMap>, x: PendingMiss)
    ensures ApplyBatch(miss, [x]) == ApplyMiss(miss, x)
  {
    hide ApplyMiss;
    assert [x][..0] == [];
  }

  /** A newer write the victim holds erases the mark of the older one on the same bytes. */
  lemma MarkErased(miss: seq<MissMap>, i: nat, x: PendingMiss, y: PendingMiss)
    requires i < |miss| && miss[i] == map[] && x.addr == y.addr && x.len == y.len && i in y.held
    ensures ApplyBatch(ApplyBatch(miss, [x]), [y])[i] == map[] && ApplyBatch(miss, [x, y])[i] == map[]
  {
    BatchOfOne(miss, x);
    BatchOfOne(ApplyMiss(miss, x), y);
    assert [x, y][..1] == [x];
    hide ApplyMiss;
    var one, two := ApplyMiss(miss, x), ApplyMiss(ApplyMiss(miss, x), y);
    forall b: nat ensures b !in two[i] {
      ApplyMissAt(miss, x, i, b);
      ApplyMissAt(one, y, i, b);
    }
    assert two[i] == map[];
  }
}
