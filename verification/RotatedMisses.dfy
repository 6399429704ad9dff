/**
 * What a fold is for: after writes that each member missed one of, nobody may serve a read
 * of their range until they are folded, and then everybody who proved itself and holds the
 * newest of them may.
 */
module RotatedMisses {
  import opened CraftTypes
  import opened Router
  import opened Protocol
  import opened Runs
  import opened ReadSafety
  import opened Scripted
  import opened Staging
  import opened Exclusion

  /** Whose turn it is to miss `d`: the anchor's first, then on round the set. */
  function Turn(s0: State, d: Lsn): (i: nat)
    requires s0.anchor < |s0.reps| && s0.trk.base < d <= s0.trk.base + |s0.reps|
    ensures i < |s0.reps|
  {
    var k := s0.anchor + (d - s0.trk.base - 1);
    if k < |s0.reps| then k else k - |s0.reps|
  }

  /** As many writes of block 0 as there are members, each missed by another one. */
  function Rotation(s0: State, data: seq<u8>): Play
    requires s0.anchor < |s0.reps|
  {
    Play(s0, map d | d in LsnRange(s0.trk.base + 1, s0.trk.base + |s0.reps|) :: Turn(s0, d), data)
  }

  lemma TurnComes(s0: State, i: nat) returns (d: Lsn)
    requires s0.anchor < |s0.reps| && i < |s0.reps|
    ensures s0.trk.base < d <= s0.trk.base + |s0.reps| && Turn(s0, d) == i
  {
    d := s0.trk.base + 1 + (if i >= s0.anchor then i - s0.anchor else i + |s0.reps| - s0.anchor);
  }

  /** Misses of block 0, oldest first. */
  ghost predicate InOrder(g: Play, q: seq<PendingMiss>, lo: Lsn, hi: Lsn) {
    Ascending(q) && forall e :: e in q ==> lo < e.dlsn <= hi && e.addr == 0 && e.len == g.s0.pageSize
  }

  lemma OrderNext(g: Play, q: seq<PendingMiss>, e: PendingMiss, lo: Lsn, hi: Lsn)
    requires InOrder(g, q, lo, hi - 1) && lo < e.dlsn == hi && e.addr == 0 && e.len == g.s0.pageSize
    ensures InOrder(g, q + [e], lo, hi)
  {
    forall j, k | 0 <= j < k < |q| + 1 ensures (q + [e])[j].dlsn <= (q + [e])[k].dlsn {
      if k == |q| { assert q[j] in q; }
    }
  }

  lemma {:induction false} MissesInOrder(g: Play, lo: Lsn, hi: Lsn)
    ensures InOrder(g, g.Misses(lo, hi), lo, hi)
    decreases hi - lo
  {
    if lo < hi {
      MissesInOrder(g, lo, hi - 1);
      if hi in g.script {
        OrderNext(g, g.Misses(lo, hi - 1), g.MissOf(hi), lo, hi);
      } else {
        assert g.Misses(lo, hi) == g.Misses(lo, hi - 1);
      }
    }
  }

  lemma {:induction false} AllDue(q: seq<PendingMiss>, t: Lsn)
    requires forall e :: e in q ==> e.dlsn <= t
    ensures Select(q, t, true) == q && Select(q, t, false) == []
  {
    if q != [] { AllDue(q[..|q| - 1], t); }
  }

  // ---------------------------------------------------------------- before and after the fold

  lemma SceneSizes(g: Play, s: State, k: Lsn, f: Lsn, q: seq<PendingMiss>)
    requires Scene(g, s, k, f, q)
    ensures |s.route.synced| == |s.route.miss| == g.N() == s.route.n && g.Victim() < g.N() && s.route.folded == f
    ensures s.route.login == s.route.trunc == g.Login() && s.route.synced[g.Victim()] >= g.Login()
    ensures s.trk.frontier == s.trk.highestAcked == k && Reaches(g.s0, s)
  {
    hide ExclInv, Reaches, Stored, SlotOn;
  }

  lemma SceneSlot(g: Play, s: State, k: Lsn, f: Lsn, q: seq<PendingMiss>, d: Lsn)
    requires PlayOk(g) && Scene(g, s, k, f, q) && g.Login() < d <= k && d in g.script
    ensures d in s.route.overlay && s.route.overlay[d].addr == 0 && s.route.overlay[d].len == g.s0.pageSize > 0
    ensures s.route.overlay[d].holders == Members(g.N()) - {g.script[d]} && g.N() >= 3 && g.script[d] < g.N()
  {
    hide ExclInv, Reaches, Stored, AtFold, Tracked, Members;
  }

  /** Before the fold everybody is kept out by the write it missed. */
  lemma KeptOut(g: Play, s: State, k: Lsn, q: seq<PendingMiss>, d: Lsn)
    requires PlayOk(g) && Scene(g, s, k, g.Login(), q) && g.Login() < d <= k && d in g.script
    ensures g.script[d] < |s.route.synced| == |s.route.miss|
    ensures !Eligible(s.route, g.script[d], 0, g.s0.pageSize, k)
  {
    hide PlayOk, Scene, MapClear;
    SceneSizes(g, s, k, g.Login(), q);
    SceneSlot(g, s, k, g.Login(), q, d);
    AllButOne(g.N(), g.script[d]);
    assert !SlotClear(s.route, d, g.script[d], 0, g.s0.pageSize);
  }

  /** The newest of the folded misses alone decides block 0 of a map that was clear. */
  lemma NewestDecides(g: Play, miss: seq<MissMap>, lo: Lsn, hi: Lsn, i: nat, y: nat)
    requires lo < hi && hi in g.script && i < |miss| == g.N() && miss[i] == map[]
    ensures y in ApplyBatch(miss, g.Misses(lo, hi))[i] <==> y < g.s0.pageSize && i == g.script[hi]
  {
    var q := g.Misses(lo, hi);
    MissesInOrder(g, lo, hi);
    assert q[|q| - 1] == g.MissOf(hi);
    hide Ascending, ApplyBatch;
    if y < g.s0.pageSize {
      BatchStep(miss, q, i, y);
    } else {
      BatchMissesByte(miss, q, i, y);
    }
  }

  lemma FoldedClear(g: Play, s: State, k: Lsn, miss: seq<MissMap>, i: nat)
    requires Scene(g, s, k, k, []) && g.Login() < k && k in g.script && i < g.N() == |miss| && g.s0.pageSize > 0
    requires s.route.miss == ApplyBatch(miss, g.Misses(g.Login(), k)) && miss[i] == map[]
    ensures |s.route.synced| == |s.route.miss| == g.N()
    ensures Eligible(s.route, i, 0, g.s0.pageSize, k) <==> s.route.synced[i] >= g.Login() && i != g.script[k]
  {
    hide Scene, ApplyBatch, SlotClear;
    SceneSizes(g, s, k, k, []);
    forall y: nat ensures y in s.route.miss[i] <==> y < g.s0.pageSize && i == g.script[k] {
      NewestDecides(g, miss, g.Login(), k, i, y);
    }
    assert CoversByte(0, g.s0.pageSize, 0);
  }

  lemma LoginParts(s0: State)
    requires FreshLogin(s0)
    ensures s0.anchor < |s0.reps| && s0.pageSize > 0
  {
  }

  lemma RotationOk(s0: State, data: seq<u8>)
    requires FreshLogin(s0) && s0.anchor < |s0.reps| && |s0.reps| >= 3 && |data| == s0.pageSize
    ensures PlayOk(Rotation(s0, data))
    ensures forall d :: s0.trk.base < d <= s0.trk.base + |s0.reps| ==>
      d in Rotation(s0, data).script && Rotation(s0, data).script[d] == Turn(s0, d)
  {
    hide FreshLogin;
    var g := Rotation(s0, data);
    forall d | d in g.script ensures g.script[d] < g.N() { assert g.script[d] == Turn(s0, d); }
    forall d | s0.trk.base < d <= s0.trk.base + |s0.reps| ensures d in g.script && g.script[d] == Turn(s0, d) {
      assert d in LsnRange(s0.trk.base + 1, s0.trk.base + |s0.reps|);
    }
  }

  /** The writes are all in and acked, and nothing is folded. */
  lemma Rotated(s0: State, data: seq<u8>) returns (s: State, a: State)
    requires FreshLogin(s0) && s0.anchor < |s0.reps| && |s0.reps| >= 3 && |data| == s0.pageSize
    ensures var (g, lo, top) := (Rotation(s0, data), s0.trk.base, s0.trk.base + |s0.reps|);
      && Reaches(s0, a) && Scene(g, a, top, lo, g.Misses(lo, top)) && a.route.miss == s.route.miss
      && |s.route.miss| == |s0.reps| && forall i :: 0 <= i < |s0.reps| ==> s.route.miss[i] == map[]
  {
    hide PlayOk, Reaches, FreshLogin, Scene, Turn;
    var g, lo, top := Rotation(s0, data), s0.trk.base, s0.trk.base + |s0.reps|;
    RotationOk(s0, data);
    s := Opening(g);
    SceneSizes(g, s, lo, lo, []);
    a := SceneTo(g, s, lo, lo, [], top);
    assert [] + g.Misses(lo, top) == g.Misses(lo, top);
    SceneSizes(g, a, top, lo, g.Misses(lo, top));
  }

  /**
   * From every login of three members or more there is a session in which every member
   * misses one of the writes of a block, all of them acked: no member may serve the block
   * at the frontier. Folding is enough to let in, of the members that proved themselves,
   * all but the one that missed the newest; the anchor is among them.
   */
  lemma FoldLetsIn(s0: State, data: seq<u8>) returns (a: State, b: State)
    requires FreshLogin(s0) && |s0.reps| >= 3 && |data| == s0.pageSize
    ensures Reaches(s0, a) && Reaches(a, b)
    ensures var top := s0.trk.base + |s0.reps|;
      && s0.anchor < |s0.reps|
      && a.trk.frontier == a.trk.highestAcked == b.trk.frontier == b.trk.highestAcked == top
      && |a.route.synced| == |a.route.miss| == |b.route.synced| == |b.route.miss| == |s0.reps|
      && a.route.folded == s0.trk.base && b.route.folded == top
      && (forall i: nat :: i < |s0.reps| ==> !Eligible(a.route, i, 0, s0.pageSize, top))
      && (forall i: nat :: i < |s0.reps| ==> (Eligible(b.route, i, 0, s0.pageSize, top) <==>
            b.route.synced[i] >= s0.trk.base && i != Turn(s0, top)))
      && Eligible(b.route, s0.anchor, 0, s0.pageSize, top)
  {
    hide PlayOk, Scene, Reaches, FreshLogin, ApplyBatch, Select, Ascending, Eligible;
    LoginParts(s0);
    var g, lo, top := Rotation(s0, data), s0.trk.base, s0.trk.base + |s0.reps|;
    RotationOk(s0, data);
    var s;
    s, a := Rotated(s0, data);
    var q := g.Misses(lo, top);
    SceneSizes(g, a, top, lo, q);
    forall i: nat | i < |s0.reps| ensures !Eligible(a.route, i, 0, s0.pageSize, top) {
      var d := TurnComes(s0, i);
      KeptOut(g, a, top, q, d);
    }
    MissesInOrder(g, lo, top);
    AllDue(q, top);
    b := SceneSlow(g, a, top, lo, q, top, q, []);
    SceneSizes(g, b, top, top, []);
    forall i: nat | i < |s0.reps|
      ensures Eligible(b.route, i, 0, s0.pageSize, top) <==> b.route.synced[i] >= lo && i != Turn(s0, top)
    {
      FoldedClear(g, b, top, s.route.miss, i);
    }
  }
}
