/**
 * Exactly when a routed read is right. A reading is taken at a position: the map level
 * when the maps were read, what the scan did not look at, and the horizons. In sessions
 * of three members or more a position is safe if and only if it is timely; with one or
 * two members every reading is right.
 */
module SessionExact {
  import opened CraftTypes
  import opened Replica
  import opened Tracker
  import opened Router
  import opened Protocol
  import opened Exclusion
  import opened Runs
  import opened Pieces
  import opened ReadPlan
  import opened PlanSpec
  import opened PlanAcross
  import opened Safety
  import opened SafetyRound
  import opened ReadSafety
  import opened Scripted
  import opened Staging

  /**
   * Byte `y` of a read of [addr, addr + len): planned between `p` and `q` as part of
   * segment `k`, member `i` let through with the maps read in `a`, the fold loaded in `b`
   * and the scan over in `c`, served in `e`.
   */
  datatype Reading = Reading(p: State, q: State, a: State, b: State, c: State, e: State,
                             addr: nat, len: nat, segs: seq<Segment>, k: nat, i: nat, y: nat)

  ghost predicate Taken(s0: State, rd: Reading, hmax: Lsn, h: Lsn) {
    && Reaches(s0, rd.p) && Reaches(rd.p, rd.q) && Reaches(rd.q, rd.a) && Reaches(rd.c, rd.e)
    && Planned(rd.p, rd.q, rd.segs, rd.addr, rd.len, rd.k, rd.y) && rd.segs[rd.k].tag == h && Within(rd.segs, hmax)
    && rd.i < |s0.reps| && Routed(rd.a, rd.b, rd.c, rd.i, rd.addr, rd.len, hmax)
  }

  /** Where the two reads of eligible() found the fold. */
  predicate Position(rd: Reading, level: Lsn, blind: Lsn) {
    MapLevel(rd.a.route) == level && Max(rd.b.route.folded, rd.c.route.trunc) == blind
  }

  /** What is shown is not older than the highest write acked when the plan began. */
  predicate Right(rd: Reading, h: Lsn) {
    rd.e.pageSize > 0 && rd.i < |rd.e.reps| && AckedWinner(rd.p, rd.y) <= Shown(rd.e, rd.i, h, rd.y)
  }

  /** Every reading taken at this position of the session that starts in `s0` is right. */
  ghost predicate AlwaysRight(s0: State, level: Lsn, blind: Lsn, hmax: Lsn, h: Lsn) {
    forall rd :: Taken(s0, rd, hmax, h) && Position(rd, level, blind) ==> Right(rd, h)
  }

  // ---------------------------------------------------------------- the readings that are right

  lemma BaseKept(s0: State, s: State)
    requires FreshLogin(s0) && Reaches(s0, s)
    ensures s.route.login == s0.trk.base && SafeInv(s) && Later(s0, s)
  {
    FreshSafe(s0);
    ReachesSafe(s0, s);
  }

  lemma TimelyRight(s0: State, rd: Reading, level: Lsn, blind: Lsn, hmax: Lsn, h: Lsn)
    requires FreshLogin(s0) && Taken(s0, rd, hmax, h) && Position(rd, level, blind)
    requires Timely(s0.trk.base, level, blind, h)
    ensures Right(rd, h)
  {
    assert InTime(rd.a, rd.b, rd.c, h) by {
      ReachesOn(s0, rd.p, rd.q);
      ReachesOn(s0, rd.q, rd.a);
      BaseKept(s0, rd.a);
    }
    hide Reaches, Planned, Routed, InTime, Within, FreshLogin;
    var v := ReadSafe(s0, rd.p, rd.q, rd.a, rd.b, rd.c, rd.e, rd.addr, rd.len, rd.segs, hmax, rd.i, rd.k, rd.y);
  }

  /** Two members or fewer: every acked write is on all of them. */
  lemma HeldByAll(s: State, d: Lsn, i: nat)
    requires ExclInv(s) && AckedAt(s.trk, d) && i < |s.reps| <= 2
    ensures HoldsAt(s.reps[i], d)
  {
    if i !in HoldersOf(s.reps, d) { SubsetSize(HoldersOf(s.reps, d), Members(|s.reps|) - {i}); }
  }

  lemma SmallSetRight(s0: State, rd: Reading, hmax: Lsn, h: Lsn)
    requires FreshLogin(s0) && Taken(s0, rd, hmax, h) && |s0.reps| <= 2
    ensures Right(rd, h)
  {
    hide ExclInv, SafeInv, Later, Certified, Planned, Reaches, FreshLogin, TrackerLater, Routed, SeesAcked;
    ReadingSafe(s0, rd, hmax, h);
    var w := TopOn(rd.q.trk, h, rd.y);
    PlannedIs(rd.p, rd.q, rd.segs, rd.addr, rd.len, rd.k, rd.y);
    PlannedStaysAcked(rd.q.trk, rd.e.trk, h, rd.y);
    AckedSeen(rd.p.trk, rd.q.trk, h, rd.y);
    SafeParts(rd.e);
    if w > rd.q.trk.base { HeldByAll(rd.e, w, rd.i); }
    ShownIsAcked(rd.q.trk, rd.e, rd.i, h, rd.y);
  }

  lemma PlannedIs(p: State, q: State, segs: seq<Segment>, addr: nat, len: nat, k: nat, y: nat)
    requires Planned(p, q, segs, addr, len, k, y)
    ensures Certified(q.trk, segs[k].tag, y) && SeesAcked(p.trk, q.trk, segs[k].tag, y)
  {
  }

  lemma SafeParts(s: State)
    requires SafeInv(s)
    ensures ExclInv(s) && FoundersFull(s) && s.pageSize > 0
  {
  }

  lemma ReadingSafe(s0: State, rd: Reading, hmax: Lsn, h: Lsn)
    requires FreshLogin(s0) && Taken(s0, rd, hmax, h)
    ensures SafeInv(rd.e) && TrackerLater(rd.q.trk, rd.e.trk) && |rd.e.reps| == |s0.reps|
    ensures rd.q.trk.base == rd.p.trk.base
  {
    hide SafeInv, Later, Reaches, Planned, FreshLogin;
    BaseKept(s0, rd.p);
    ReachesSafe(rd.p, rd.q);
    ReachesSafe(rd.q, rd.a);
    RoutedSafe(rd.a, rd.b, rd.c, rd.i, rd.addr, rd.len, hmax);
    ReachesSafe(rd.c, rd.e);
    hide Routed;
    LaterTransitive(rd.q, rd.a, rd.b);
    LaterTransitive(rd.q, rd.b, rd.c);
    LaterTransitive(rd.q, rd.c, rd.e);
    LaterTransitive(s0, rd.p, rd.q);
    LaterTransitive(s0, rd.q, rd.e);
    FreshSafe(s0);
    SameBase(s0, rd.e);
    LaterTracker(rd.q, rd.e);
    LaterTracker(rd.p, rd.q);
  }

  // ---------------------------------------------------------------- the readings that go wrong

  /** A quorum acked `w` with payload `data` before the read was planned; the read shows what was there at login. */
  ghost predicate Lost(s0: State, rd: Reading, h: Lsn, data: seq<u8>) {
    var w := AckedWinner(rd.p, rd.y);
    && FreshLogin(s0) && w > s0.trk.base && QuorumHeld(rd.p.route, w)
    && w in rd.p.writes && rd.p.writes[w] == Write(0, |data|, Some(data)) && rd.y == 0
    && rd.e.pageSize > 0 && rd.i < |rd.e.reps| && RepInv(rd.e.reps[rd.i])
    && Shown(rd.e, rd.i, h, rd.y) == s0.trk.base && ServedByte(rd.e.reps[rd.i], h, rd.y) == LoginByte(s0, rd.y)
  }

  predicate QuorumHeld(r: Route, d: Lsn) {
    d in r.overlay && |r.overlay[d].holders| >= Quorum(r.n) && !r.overlay[d].verdict
  }

  /** The reading of block 0 planned at once in `p` and served as soon as it is routed. */
  function ReadOf(g: Play, p: State, a: State, b: State, c: State, h: Lsn): Reading {
    Reading(p, p, a, b, c, c, 0, g.s0.pageSize, [Piece(0, g.s0.pageSize, h)], 0, g.Victim(), 0)
  }

  /** Up to `h` the script has one write, missed by the victim. */
  predicate OneMissed(g: Play, w: Lsn, h: Lsn) {
    && w in g.script && g.script[w] == g.Victim() && g.Login() < w <= h
    && forall d :: d in g.script && g.Login() < d <= h ==> d == w
  }

  lemma PlannedThen(g: Play, p: State, w: Lsn, h: Lsn)
    requires PlayOk(g) && Played(g, p, h) && OneMissed(g, w, h)
    ensures PlanOk(p.trk, 0, g.s0.pageSize, [Piece(0, g.s0.pageSize, h)]) && AckedWinner(p, 0) == w
    ensures QuorumHeld(p.route, w) && w in p.writes && p.writes[w] == Write(0, |g.data|, Some(g.data))
  {
    hide ExclInv, Reaches, FreshLogin, BestHorizon, TrkInv, Members, Stored;
    PlayedParts(g, p, h);
    PlayParts(g);
    AllButOne(g.N(), g.Victim());
    assert AckedAt(p.trk, w) && CoversByteOf(p.trk.slots[w], 0);
    assert forall d :: w < d <= h ==> !CoversByteOf(p.trk.slots[d], 0);
    forall y: nat | y < g.s0.pageSize ensures BestHorizon(p.trk, h, y) { FrontierIsBest(p.trk, y); }
  }

  /** The victim shows nothing of this session on byte 0. */
  lemma ShowsLogin(g: Play, s: State, k: Lsn, w: Lsn, h: Lsn)
    requires PlayOk(g) && Played(g, s, k) && OneMissed(g, w, h) && h <= k
    ensures g.Victim() < |s.reps| && s.pageSize > 0 && Shown(s, g.Victim(), h, 0) == g.Login()
  {
    hide Reaches, Indexed, LegsOk, EmptyOk, FoundersOk, AckedOk, VoidOk, FreshMember;
    var m := g.Victim();
    assert 0 / s.pageSize == 0;
    forall d | g.Login() < d <= h && d in s.reps[m].journal ensures !Covers(s.reps[m].journal[d], 0) {
      if HoldsAt(s.reps[m], d) { SlotCovers(s, m, d, 0); }
    }
  }

  /** A reading of a staged session that goes wrong, from its parts. */
  lemma GoesWrong(g: Play, p: State, a: State, b: State, c: State, w: Lsn, k: Lsn, hmax: Lsn, h: Lsn)
    requires PlayOk(g) && Played(g, p, h) && Reaches(p, a) && Played(g, c, k) && OneMissed(g, w, h) && h <= k
    requires Routed(a, b, c, g.Victim(), 0, g.s0.pageSize, hmax) && h <= hmax
    ensures Taken(g.s0, ReadOf(g, p, a, b, c, h), hmax, h) && Lost(g.s0, ReadOf(g, p, a, b, c, h), h, g.data)
  {
    hide Reaches, Played, SafePlan, Routed, PlanOk, PlayOk, TrkInv, FreshLogin, Shown, ServedByte, RepInv;
    hide QuorumHeld, AckedWinner, LoginByte;
    PlannedThen(g, p, w, h);
    ShowsLogin(g, c, k, w, h);
    PlayedParts(g, p, h);
    PlayedParts(g, c, k);
    PlayParts(g);
    PlanOkIsSafe(p.trk, 0, g.s0.pageSize, [Piece(0, g.s0.pageSize, h)]);
    ReachesSelf(p);
    ReachesSelf(c);
    ServesLogin(g, c, h);
  }

  lemma PlayedParts(g: Play, s: State, k: Lsn)
    requires Played(g, s, k)
    ensures Reaches(g.s0, s) && TrkInv(s.trk) && s.trk.base == g.Login() && g.Victim() < |s.reps|
    ensures s.reps[g.Victim()].commit == g.Login()
  {
  }

  lemma PlayParts(g: Play)
    requires PlayOk(g)
    ensures FreshLogin(g.s0) && g.Victim() < |g.s0.reps| && g.s0.pageSize > 0
  {
  }

  lemma ServesLogin(g: Play, c: State, h: Lsn)
    requires PlayOk(g) && Reaches(g.s0, c) && g.Victim() < |c.reps| && c.pageSize > 0
    requires c.trk.base == g.Login() && c.reps[g.Victim()].commit == g.Login()
    requires Shown(c, g.Victim(), h, 0) == g.Login()
    ensures RepInv(c.reps[g.Victim()]) && ServedByte(c.reps[g.Victim()], h, 0) == LoginByte(g.s0, 0)
  {
    FreshSafe(g.s0);
    BaseKept(g.s0, c);
    hide Reaches;
    FinishRead(g.s0, c, g.Victim(), h, 0);
  }

  /** Nothing above the fold stands against the victim. */
  lemma ScanClear(g: Play, b: State, k: Lsn, hmax: Lsn)
    requires PlayOk(g) && Played(g, b, k)
    requires forall d :: d in g.script && b.route.folded < d <= k ==> g.script[d] != g.Victim()
    ensures forall d :: b.route.folded < d <= hmax ==> SlotClear(b.route, d, g.Victim(), 0, g.s0.pageSize)
  {
    assert g.Victim() in Members(g.N());
    hide ExclInv, Reaches, FreshLogin, Members, Stored, Tracked;
  }

  /** The maps are read in `a`; the fold is loaded and the slots are read in `b`. */
  lemma LetThrough(g: Play, a: State, b: State, k: Lsn, hmax: Lsn)
    requires PlayOk(g) && Reaches(a, b) && Proved(g, a.route) && a.route.login == g.Login()
    requires a.route.miss[g.Victim()] == map[] && Played(g, b, k)
    requires forall d :: d in g.script && b.route.folded < d <= k ==> g.script[d] != g.Victim()
    ensures Routed(a, b, b, g.Victim(), 0, g.s0.pageSize, hmax)
  {
    ScanClear(g, b, k, hmax);
    ReachesSelf(b);
    hide Reaches, Played, PlayOk;
    forall d | b.route.folded < d <= hmax ensures SlotPassed(b, b, d, g.Victim(), 0, g.s0.pageSize) { }
  }

  lemma SceneIs(g: Play, s: State, k: Lsn, f: Lsn, q: seq<PendingMiss>)
    requires Scene(g, s, k, f, q)
    ensures Played(g, s, k) && Proved(g, s.route) && s.route.login == g.Login() && MapLevel(s.route) == f
    ensures s.route.folded == f && s.route.trunc == g.Login() && g.Victim() < g.N() == |s.route.miss|
  {
  }

  /** A play in which the victim misses the one write `w`. */
  function Missing(s0: State, data: seq<u8>, w: Lsn): Play {
    Play(s0, map[w := s0.anchor], data)
  }

  ghost predicate Stage(s0: State, data: seq<u8>) {
    FreshLogin(s0) && |s0.reps| >= 3 && |data| == s0.pageSize
  }

  lemma StageParts(s0: State, data: seq<u8>)
    requires Stage(s0, data)
    ensures s0.anchor < |s0.reps| && s0.pageSize > 0
  {
  }

  lemma MissingPlay(s0: State, data: seq<u8>, w: Lsn, h: Lsn)
    requires Stage(s0, data) && s0.trk.base < w <= h
    ensures var g := Missing(s0, data, w);
      && PlayOk(g) && OneMissed(g, w, h) && g.s0 == s0 && g.data == data && g.Login() == s0.trk.base
      && g.script.Keys == {w} && g.MissOf(w).dlsn == w
  {
    hide FreshLogin;
    StageParts(s0, data);
  }

  lemma At(g: Play, p: State, a: State, b: State, c: State, h: Lsn, level: Lsn, blind: Lsn)
    requires MapLevel(a.route) == level && Max(b.route.folded, c.route.trunc) == blind
    ensures var rd := ReadOf(g, p, a, b, c, h);
      Position(rd, level, blind) && rd.a == a && rd.b == b && rd.c == rd.e == c
  {
  }

  /** The play up to the plan: everything up to `h` is acked and nothing is folded. */
  lemma PlanOne(g: Play, w: Lsn, h: Lsn) returns (p: State)
    requires PlayOk(g) && OneMissed(g, w, h)
    ensures Scene(g, p, h, g.Login(), [g.MissOf(w)]) && p.route.miss[g.Victim()] == map[]
  {
    hide Scene, FreshLogin;
    var s := Opening(g);
    p := SceneTo(g, s, g.Login(), g.Login(), [], h);
    OneMiss(g, g.Login(), w, h);
    assert [] + [g.MissOf(w)] == [g.MissOf(w)];
  }

  /** More writes of block 1. */
  lemma PlayOn(g: Play, s: State, k: Lsn, f: Lsn, q: seq<PendingMiss>, k': Lsn) returns (s': State)
    requires PlayOk(g) && Scene(g, s, k, f, q) && g.Login() <= k
    requires forall d :: d in g.script ==> !(k < d <= k')
    ensures Reaches(s, s') && Scene(g, s', Max(k, k'), f, q) && s'.route.miss == s.route.miss
  {
    hide Scene, Reaches;
    s' := SceneTo(g, s, k, f, q, Max(k, k'));
    NoMisses(g, k, Max(k, k'));
    assert q + [] == q;
  }

  /**
   * The maps are read too early: the write is folded between the two reads. The victim
   * passes a map that does not show the write yet and a scan that no longer looks at it.
   */
  lemma ReadTooEarly(s0: State, data: seq<u8>, level: Lsn, blind: Lsn, hmax: Lsn, h: Lsn) returns (rd: Reading)
    requires Stage(s0, data) && s0.trk.base <= level < Min(blind, h) && h <= hmax
    ensures Taken(s0, rd, hmax, h) && Position(rd, level, blind) && Lost(s0, rd, h, data) && rd.e == rd.c
  {
    hide *;
    var w, k := level + 1, Max(h, blind);
    MissingPlay(s0, data, w, h);
    var g := Missing(s0, data, w);
    var x := g.MissOf(w);
    OneDue(x, blind);
    var p := PlanOne(g, w, h);
    var a := SceneFast(g, p, h, g.Login(), [x], level);
    var m := PlayOn(g, a, h, level, [x], blind);
    var b := SceneSlow(g, m, k, level, [x], blind, [x], []);
    ReachesOn(a, m, b);
    SceneIs(g, p, h, g.Login(), [x]);
    SceneIs(g, a, h, level, [x]);
    SceneIs(g, b, k, blind, []);
    LetThrough(g, a, b, k, hmax);
    GoesWrong(g, p, a, b, b, w, k, hmax, h);
    At(g, p, a, b, b, h, level, blind);
    rd := ReadOf(g, p, a, b, b, h);
  }

  /** A play in which the victim misses the first write and holds a later one that somebody else misses. */
  function Overwritten(s0: State, data: seq<u8>, later: Lsn): Play {
    Play(s0, map[s0.trk.base + 1 := s0.anchor, later := if s0.anchor == 0 then 1 else 0], data)
  }

  lemma OverwrittenPlay(s0: State, data: seq<u8>, later: Lsn, h: Lsn)
    requires Stage(s0, data) && s0.trk.base < h < later
    ensures var g, w := Overwritten(s0, data, later), s0.trk.base + 1;
      && PlayOk(g) && OneMissed(g, w, h) && g.s0 == s0 && g.data == data && g.Login() == s0.trk.base
      && g.script.Keys == {w, later} && g.MissOf(w).dlsn == w && g.MissOf(later).dlsn == later
      && g.script[later] != g.Victim() && g.Victim() in g.MissOf(later).held
      && g.MissOf(w).addr == g.MissOf(later).addr && g.MissOf(w).len == g.MissOf(later).len
  {
    hide FreshLogin;
    StageParts(s0, data);
  }

  /** Both writes are queued. */
  lemma PlanTwo(g: Play, p: State, later: Lsn, h: Lsn, k: Lsn) returns (s: State)
    requires PlayOk(g) && g.script.Keys == {g.Login() + 1, later} && g.Login() < h < later <= k
    requires Scene(g, p, h, g.Login(), [g.MissOf(g.Login() + 1)])
    ensures Reaches(p, s) && s.route.miss == p.route.miss
    ensures Scene(g, s, k, g.Login(), [g.MissOf(g.Login() + 1), g.MissOf(later)])
  {
    hide Scene, Reaches, FreshLogin;
    s := SceneTo(g, p, h, g.Login(), [g.MissOf(g.Login() + 1)], k);
    OneMiss(g, h, later, k);
    assert [g.MissOf(g.Login() + 1)] + [g.MissOf(later)] == [g.MissOf(g.Login() + 1), g.MissOf(later)];
  }

  /** The newer write has erased the mark of the older one, and both are folded. */
  lemma Erased(g: Play, level: Lsn, k: Lsn, h: Lsn) returns (p: State, a: State)
    requires PlayOk(g) && g.script.Keys == {g.Login() + 1, level} && OneMissed(g, g.Login() + 1, h)
    requires g.script[level] != g.Victim() && h < level <= k
    ensures Played(g, p, h) && Reaches(p, a) && Scene(g, a, k, level, []) && Proved(g, a.route)
    ensures a.route.miss[g.Victim()] == map[]
  {
    hide *;
    var w := g.Login() + 1;
    var x, y := g.MissOf(w), g.MissOf(level);
    MissFields(g, w);
    MissFields(g, level);
    OneMissedIs(g, w, h);
    TwoDue(x, y, level);
    p := PlanOne(g, w, h);
    var s := PlanTwo(g, p, level, h, k);
    a := SceneSlow(g, s, k, g.Login(), [x, y], level, [x, y], []);
    SceneIs(g, p, h, g.Login(), [x]);
    SceneIs(g, s, k, g.Login(), [x, y]);
    SceneIs(g, a, k, level, []);
    MarkErased(s.route.miss, g.Victim(), x, y);
    ReachesOn(p, s, a);
  }

  lemma MissFields(g: Play, d: Lsn)
    requires PlayOk(g) && d in g.script
    ensures var x := g.MissOf(d);
      && x.dlsn == d && x.addr == 0 && x.len == g.s0.pageSize && (g.script[d] != g.Victim() ==> g.Victim() in x.held)
  {
    PlayParts(g);
    hide FreshLogin;
  }

  lemma OneMissedIs(g: Play, w: Lsn, h: Lsn)
    requires OneMissed(g, w, h)
    ensures g.Login() < w <= h && w in g.script && g.script[w] == g.Victim()
  {
  }

  /**
   * The maps have moved on: a newer write that the victim holds has erased the mark of the
   * one the horizon shows, and both are folded.
   */
  lemma ReadTooLate(s0: State, data: seq<u8>, level: Lsn, blind: Lsn, hmax: Lsn, h: Lsn) returns (rd: Reading)
    requires Stage(s0, data) && s0.trk.base < h < level <= blind && h <= hmax
    ensures Taken(s0, rd, hmax, h) && Position(rd, level, blind) && Lost(s0, rd, h, data) && rd.e == rd.c
  {
    hide *;
    OverwrittenPlay(s0, data, level, h);
    var g := Overwritten(s0, data, level);
    var w := g.Login() + 1;
    var p, a := Erased(g, level, blind, h);
    assert LowestDlsn([]).None?;
    var b := SceneFast(g, a, blind, level, [], blind);
    SceneIs(g, a, blind, level, []);
    SceneIs(g, b, blind, blind, []);
    LetThrough(g, a, b, blind, hmax);
    GoesWrong(g, p, a, b, b, w, blind, hmax, h);
    At(g, p, a, b, b, h, level, blind);
    rd := ReadOf(g, p, a, b, b, h);
  }

  /** The same with nothing going on: eligible() taken in one state, with no fold under way. */
  lemma FoldPassed(s0: State, data: seq<u8>, folded: Lsn, hmax: Lsn, h: Lsn) returns (rd: Reading)
    requires Stage(s0, data) && s0.trk.base < h < folded && h <= hmax
    ensures Taken(s0, rd, hmax, h) && Position(rd, folded, folded) && Lost(s0, rd, h, data) && rd.e == rd.c
    ensures rd.a == rd.b == rd.c && rd.a.route.flight.None? && rd.a.route.folded == folded
    ensures rd.i < |rd.a.route.synced| && rd.i < |rd.a.route.miss| && Eligible(rd.a.route, rd.i, rd.addr, rd.len, hmax)
  {
    hide *;
    OverwrittenPlay(s0, data, folded, h);
    var g := Overwritten(s0, data, folded);
    var w := g.Login() + 1;
    var p, a := Erased(g, folded, folded, h);
    SceneIs(g, a, folded, folded, []);
    SceneQuiet(g, a, folded, folded, []);
    ReachesSelf(a);
    LetThrough(g, a, a, folded, hmax);
    GoesWrong(g, p, a, a, a, w, folded, hmax, h);
    At(g, p, a, a, a, h, folded, folded);
    rd := ReadOf(g, p, a, a, a, h);
    ScanClear(g, a, folded, hmax);
    EligibleThen(g, a.route, hmax);
    ReadOfFields(g, p, a, a, a, h);
  }

  lemma ReadOfFields(g: Play, p: State, a: State, b: State, c: State, h: Lsn)
    ensures var rd := ReadOf(g, p, a, b, c, h); rd.i == g.Victim() && rd.addr == 0 && rd.len == g.s0.pageSize
  {
  }

  lemma EligibleThen(g: Play, r: Route, hmax: Lsn)
    requires Proved(g, r) && r.login == g.Login() && r.miss[g.Victim()] == map[]
    requires forall d :: r.folded < d <= hmax ==> SlotClear(r, d, g.Victim(), 0, g.s0.pageSize)
    ensures g.Victim() < |r.synced| && g.Victim() < |r.miss| && Eligible(r, g.Victim(), 0, g.s0.pageSize, hmax)
  {
    hide SlotClear;
  }

  lemma SceneQuiet(g: Play, s: State, k: Lsn, f: Lsn, q: seq<PendingMiss>)
    requires Scene(g, s, k, f, q)
    ensures s.route.flight.None?
  {
  }

  /**
   * The maps run ahead of the fold: the newer write is applied but not published, so the
   * scan looks above the old write and the maps no longer show it.
   */
  lemma MapsAhead(s0: State, data: seq<u8>, level: Lsn, blind: Lsn, hmax: Lsn, h: Lsn) returns (rd: Reading)
    requires Stage(s0, data) && s0.trk.base < h < level && s0.trk.base < blind < level && h <= hmax
    ensures Taken(s0, rd, hmax, h) && Position(rd, level, blind) && Lost(s0, rd, h, data) && rd.e == rd.c
    ensures rd.a == rd.b == rd.c
  {
    hide *;
    OverwrittenPlay(s0, data, level, h);
    var g := Overwritten(s0, data, level);
    var w := g.Login() + 1;
    var x, y := g.MissOf(w), g.MissOf(level);
    TwoDue(x, y, blind);
    OneDue(y, level);
    var p := PlanOne(g, w, h);
    var s := PlanTwo(g, p, level, h, level);
    var u := SceneSlow(g, s, level, g.Login(), [x, y], blind, [x], [y]);
    var a := SceneApply(g, u, level, blind, [y], level, [y]);
    SceneIs(g, s, level, g.Login(), [x, y]);
    MarkErased(s.route.miss, g.Victim(), x, y);
    ReachesOn(p, s, u);
    ReachesOn(p, u, a);
    SceneIs(g, p, h, g.Login(), [x]);
    AheadIs(g, u, level, blind, y, a.route);
    ReachesSelf(a);
    LetThrough(g, a, a, level, hmax);
    GoesWrong(g, p, a, a, a, w, level, hmax, h);
    At(g, p, a, a, a, h, level, blind);
    rd := ReadOf(g, p, a, a, a, h);
  }

  lemma AheadIs(g: Play, u: State, level: Lsn, blind: Lsn, y: PendingMiss, r: Route)
    requires Scene(g, u, level, blind, [y]) && blind < level && r == ApplyTaken(TakeBatch(u.route, level, [y]))
    ensures Proved(g, r) && r.login == g.Login() && MapLevel(r) == level && r.folded == blind && r.trunc == g.Login()
    ensures r.miss == ApplyBatch(u.route.miss, [y])
  {
    hide Select, LowestDlsn, ApplyBatch;
  }

  /**
   * A fast fold overtakes a slow one: the write has left the queue and is not in the maps
   * yet, so nothing keeps the fold from passing it. Even an undisturbed eligible() says yes.
   */
  lemma FoldOvertaken(s0: State, data: seq<u8>, blind: Lsn, hmax: Lsn, h: Lsn) returns (rd: Reading)
    requires Stage(s0, data) && s0.trk.base < blind && s0.trk.base < h <= hmax
    ensures Taken(s0, rd, hmax, h) && Position(rd, s0.trk.base, blind) && Lost(s0, rd, h, data) && rd.e == rd.c
    ensures rd.a == rd.b == rd.c && CanApply(rd.a.route) && rd.a.route.folded == blind
  {
    hide *;
    var w, k := s0.trk.base + 1, Max(h, blind);
    MissingPlay(s0, data, w, h);
    var g := Missing(s0, data, w);
    var x := g.MissOf(w);
    OneDue(x, blind);
    var p := PlanOne(g, w, h);
    var s := PlayOn(g, p, h, g.Login(), [x], blind);
    var a := Overtake(g, s, k, x, blind);
    ReachesOn(p, s, a);
    SceneIs(g, p, h, g.Login(), [x]);
    ReachesSelf(a);
    LetThrough(g, a, a, k, hmax);
    GoesWrong(g, p, a, a, a, w, k, hmax, h);
    At(g, p, a, a, a, h, g.Login(), blind);
    rd := ReadOf(g, p, a, a, a, h);
  }

  lemma Overtake(g: Play, s: State, k: Lsn, x: PendingMiss, t: Lsn) returns (a: State)
    requires Scene(g, s, k, g.Login(), [x]) && x.dlsn == g.Login() + 1 <= t <= k
    requires Select([x], t, true) == [x] && Select([x], t, false) == [] && LowestDlsn([x]) == Some(x.dlsn)
    ensures Reaches(s, a) && Played(g, a, k) && Proved(g, a.route) && a.route.login == g.Login()
    ensures a.route.miss == s.route.miss && CanApply(a.route) && a.route.folded == t && a.route.trunc == g.Login()
    ensures MapLevel(a.route) == g.Login()
  {
    hide Select, LowestDlsn, Scene, Played, Reaches, CanTake;
    SceneIs(g, s, k, g.Login(), [x]);
    SceneRoute(g, s, k, g.Login(), [x]);
    TakeReady(g, s, k, g.Login(), [x], t, [x]);
    FoldableScene(g, s, k, g.Login(), t);
    assert LowestDlsn([]).None?;
    var u := Folds(g, s, k, Take(t, [x]));
    var v := Folds(g, u, k, Choose(t));
    a := Folds(g, v, k, Jump(t));
    ReachesOn(s, u, v);
    ReachesOn(s, v, a);
  }

  lemma SceneRoute(g: Play, s: State, k: Lsn, f: Lsn, q: seq<PendingMiss>)
    requires Scene(g, s, k, f, q)
    ensures s.route.flight.None? && s.route.ready == {} && s.route.pending == q
  {
  }

  /**
   * The overlay is truncated under the scan: the fold was loaded before the write was
   * folded, and by the time the scan gets to its slot the slot is gone.
   */
  lemma TruncatedUnderScan(s0: State, data: seq<u8>, blind: Lsn, hmax: Lsn, h: Lsn) returns (rd: Reading)
    requires Stage(s0, data) && blind - s0.trk.base >= TRUNC_BATCH && s0.trk.base < h <= hmax
    ensures Taken(s0, rd, hmax, h) && Position(rd, s0.trk.base, blind) && Lost(s0, rd, h, data) && rd.e == rd.c
    ensures rd.b.route.folded == s0.trk.base
  {
    hide *;
    BatchAhead(s0.trk.base, blind);
    var w, k := s0.trk.base + 1, Max(h, blind);
    MissingPlay(s0, data, w, h);
    var g := Missing(s0, data, w);
    var x := g.MissOf(w);
    OneDue(x, blind);
    var p := PlanOne(g, w, h);
    var a := PlayOn(g, p, h, g.Login(), [x], blind);
    var b := SceneSlow(g, a, k, g.Login(), [x], blind, [x], []);
    var c := SceneForgets(g, b, k, blind, []);
    ReachesOn(a, b, c);
    SceneIs(g, p, h, g.Login(), [x]);
    SceneIs(g, a, k, g.Login(), [x]);
    SceneIs(g, b, k, blind, []);
    ScanTruncated(g, a, c, k, blind, hmax);
    GoesWrong(g, p, a, a, c, w, k, hmax, h);
    At(g, p, a, a, c, h, g.Login(), blind);
    rd := ReadOf(g, p, a, a, c, h);
  }

  lemma BatchAhead(lo: Lsn, hi: Lsn)
    requires hi - lo >= TRUNC_BATCH
    ensures lo < hi
  {
  }

  lemma ScanTruncated(g: Play, a: State, c: State, k: Lsn, blind: Lsn, hmax: Lsn)
    requires PlayOk(g) && Reaches(a, c) && Proved(g, a.route) && a.route.login == g.Login()
    requires a.route.miss[g.Victim()] == map[] && Played(g, c, k) && c.route.folded == blind == c.route.trunc
    requires forall d :: d in g.script ==> d <= blind
    ensures Routed(a, a, c, g.Victim(), 0, g.s0.pageSize, hmax)
  {
    ScanClear(g, c, k, hmax);
    ReachesSelf(a);
    ReachesSelf(c);
    hide Reaches, Played, PlayOk;
    forall d | a.route.folded < d <= hmax ensures SlotPassed(a, c, d, g.Victim(), 0, g.s0.pageSize) {
      assert SlotClear(c.route, d, g.Victim(), 0, g.s0.pageSize);
    }
  }

  // ---------------------------------------------------------------- the exact condition

  lemma LostIsWrong(s0: State, rd: Reading, h: Lsn, data: seq<u8>)
    requires Lost(s0, rd, h, data)
    ensures !Right(rd, h)
  {
  }

  /** At a position that is not timely some reading loses an acked write, whatever it wrote. */
  lemma UntimelyLoses(s0: State, data: seq<u8>, level: Lsn, blind: Lsn, hmax: Lsn, h: Lsn) returns (rd: Reading)
    requires Stage(s0, data) && s0.trk.base <= level && s0.trk.base <= blind && h <= hmax
    requires !Timely(s0.trk.base, level, blind, h)
    ensures Taken(s0, rd, hmax, h) && Position(rd, level, blind) && Lost(s0, rd, h, data) && rd.e == rd.c
  {
    hide Taken, Position, Lost, Stage;
    if level <= h {
      rd := ReadTooEarly(s0, data, level, blind, hmax, h);
    } else if blind < level {
      rd := MapsAhead(s0, data, level, blind, hmax, h);
    } else {
      rd := ReadTooLate(s0, data, level, blind, hmax, h);
    }
  }

  /**
   * The condition of read safety is exact, in the session of every fresh login: all readings
   * at a position are right if and only if the position is timely or no more than two
   * members hold the volume.
   */
  lemma ReadSafeExactly(s0: State, level: Lsn, blind: Lsn, hmax: Lsn, h: Lsn)
    requires FreshLogin(s0) && s0.trk.base <= level && s0.trk.base <= blind && h <= hmax
    ensures AlwaysRight(s0, level, blind, hmax, h) <==> |s0.reps| <= 2 || Timely(s0.trk.base, level, blind, h)
  {
    if |s0.reps| <= 2 || Timely(s0.trk.base, level, blind, h) {
      forall rd | Taken(s0, rd, hmax, h) && Position(rd, level, blind) ensures Right(rd, h) {
        if |s0.reps| <= 2 {
          SmallSetRight(s0, rd, hmax, h);
        } else {
          TimelyRight(s0, rd, level, blind, hmax, h);
        }
      }
    } else {
      var data := seq(s0.pageSize, _ => 0 as u8);
      var rd := UntimelyLoses(s0, data, level, blind, hmax, h);
      LostIsWrong(s0, rd, h, data);
    }
  }
}
