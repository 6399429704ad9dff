/**
 * Exactly when a yes of eligible() is right, over every run of the routing index and for
 * every position of the map level, of what the scan did not look at, and of the horizon.
 * The runs that show the failures are those of whole sessions.
 */
module RouterExact {
  import opened CraftTypes
  import opened Replica
  import opened Router
  import opened RouterRuns
  import opened Protocol
  import opened Exclusion
  import opened Runs
  import opened Safety
  import opened SafetyRound
  import opened Pieces
  import opened ReadPlan
  import opened PlanAcross
  import opened ReadSafety
  import opened Scripted
  import opened SessionIndex
  import opened SessionExact

  /** Every yes is right that reads the maps at `level` and then does not look at or below `blind`. */
  ghost predicate AnswerSound(n: nat, login: Lsn, level: Lsn, blind: Lsn, hmax: Lsn, h: Lsn) {
    forall a: View, b: View, c: View, idx: nat, addr: nat, len: nat, y: nat ::
      Answered(n, login, level, blind, hmax, a, b, c, idx, addr, len) && CoversByte(addr, len, y) ==>
        Holds(a, c, idx, h, y)
  }

  /** A yes at this position, in some run from a fresh reset. */
  ghost predicate Answered(n: nat, login: Lsn, level: Lsn, blind: Lsn, hmax: Lsn,
                           a: View, b: View, c: View, idx: nat, addr: nat, len: nat) {
    && idx < n && |a.r.synced| == |a.r.miss| == n && Reached(n, login, a)
    && SaysYes(a, b, c, idx, addr, len, hmax) && MapLevel(a.r) == level && Blind(b, c) == blind
  }

  ghost predicate Reached(n: nat, login: Lsn, v: View) {
    exists held: Holdings :: Leads(View(Reset(n, login), held), v)
  }

  // ---------------------------------------------------------------- from sessions to the index

  lemma ReachesLeads(s: State, s': State)
    requires SafeInv(s) && Reaches(s, s')
    ensures SafeInv(s') && Leads(IndexOf(s), IndexOf(s'))
  {
    var steps :| SafeRun(s, steps, s');
    hide SafeInv, SafeRun, Leads;
    RunIsIndexRun(s, steps, s');
    ReachesSafe(s, s');
  }

  lemma SessionReached(s0: State, s: State)
    requires FreshLogin(s0) && Reaches(s0, s)
    ensures Reached(|s0.reps|, s0.trk.base, IndexOf(s)) && SafeInv(s) && |s.reps| == |s0.reps|
    ensures |s.route.synced| == |s.route.miss| == |s0.reps|
  {
    FreshSafe(s0);
    ReachesLeads(s0, s);
    BaseKept(s0, s);
    assert IndexOf(s0) == View(Reset(|s0.reps|, s0.trk.base), Held(s0));
    hide Leads, SafeInv, FreshLogin;
    assert Leads(View(Reset(|s0.reps|, s0.trk.base), Held(s0)), IndexOf(s));
  }

  lemma RoutedSaysYes(a: State, b: State, c: State, i: nat, addr: nat, len: nat, hmax: Lsn)
    requires SafeInv(a) && Routed(a, b, c, i, addr, len, hmax)
    ensures SaysYes(IndexOf(a), IndexOf(b), IndexOf(c), i, addr, len, hmax)
  {
    hide SafeInv, Reaches, Leads, MapClear;
    ReachesLeads(a, b);
    ReachesLeads(b, c);
    forall d | b.route.folded < d <= hmax ensures SlotRead(IndexOf(b), IndexOf(c), d, i, addr, len) {
      assert SlotPassed(b, c, d, i, addr, len);
      var u :| Reaches(b, u) && Reaches(u, c) && SlotClear(u.route, d, i, addr, len);
      ReachesLeads(b, u);
      ReachesLeads(u, c);
      assert SlotClear(IndexOf(u).r, d, i, addr, len);
    }
  }

  /** A write the member holds on the byte would be shown. */
  lemma HeldIsShown(a: State, c: State, i: nat, d: Lsn, h: Lsn, y: nat)
    requires SafeInv(c) && RouteGrows(a.route, c.route) && i < |c.reps| && c.pageSize > 0
    requires DurableOn(a.route, d, y) && d <= h && (d, i) in Held(c)
    ensures d <= Shown(c, i, h, y)
  {
    assert ExclInv(c);
    SlotCovers(c, i, d, y);
  }

  /** The winner of the index is at least the acked write the plan saw. */
  lemma WinnerIsAbove(s0: State, rd: Reading, hmax: Lsn, h: Lsn)
    requires FreshLogin(s0) && Taken(s0, rd, hmax, h) && AckedWinner(rd.p, rd.y) > s0.trk.base
    ensures Winner(rd.a.route, h, rd.y) > s0.trk.base == rd.a.route.login
  {
    hide Reaches, FreshLogin, Routed, SafeInv, Later;
    BaseKept(s0, rd.p);
    ReachesSafe(rd.p, rd.q);
    ReachesSafe(rd.q, rd.a);
    LaterTransitive(s0, rd.p, rd.q);
    LaterTransitive(s0, rd.q, rd.a);
    LaterTracker(s0, rd.p);
    LaterTracker(rd.p, rd.q);
    LaterTracker(rd.q, rd.a);
    FreshSafe(s0);
    SameBase(s0, rd.a);
    LoginIsBase(rd.a);
    assert Certified(rd.q.trk, h, rd.y) && SeesAcked(rd.p.trk, rd.q.trk, h, rd.y);
    hide Planned;
    AckedSeen(rd.p.trk, rd.q.trk, h, rd.y);
    PlannedStaysAcked(rd.q.trk, rd.a.trk, h, rd.y);
    AckedIsDurableOn(rd.a, TopOn(rd.q.trk, h, rd.y), rd.y);
  }

  /** A reading that loses an acked write is an answer of the index that is wrong. */
  lemma LostIsUnsound(s0: State, rd: Reading, level: Lsn, blind: Lsn, hmax: Lsn, h: Lsn, data: seq<u8>)
    requires FreshLogin(s0) && Taken(s0, rd, hmax, h) && Position(rd, level, blind) && Lost(s0, rd, h, data)
    requires rd.e == rd.c
    ensures var (a, b, c) := (IndexOf(rd.a), IndexOf(rd.b), IndexOf(rd.c));
      && Answered(|s0.reps|, s0.trk.base, level, blind, hmax, a, b, c, rd.i, rd.addr, rd.len)
      && CoversByte(rd.addr, rd.len, rd.y) && !Holds(a, c, rd.i, h, rd.y)
  {
    hide *;
    TakenParts(s0, rd, hmax, h);
    SessionReached(s0, rd.a);
    RoutedSaysYes(rd.a, rd.b, rd.c, rd.i, rd.addr, rd.len, hmax);
    RoutedGrows(rd.a, rd.b, rd.c, rd.i, rd.addr, rd.len, hmax);
    LostParts(s0, rd, h, data);
    WinnerIsAbove(s0, rd, hmax, h);
    WinnerIs(rd.a.route, h, rd.y);
    var w := Winner(rd.a.route, h, rd.y);
    if (w, rd.i) in Held(rd.c) { HeldIsShown(rd.a, rd.c, rd.i, w, h, rd.y); }
    AnswerIs(s0, rd, level, blind, hmax, h);
  }

  lemma TakenParts(s0: State, rd: Reading, hmax: Lsn, h: Lsn)
    requires Taken(s0, rd, hmax, h)
    ensures Reaches(s0, rd.a) && Routed(rd.a, rd.b, rd.c, rd.i, rd.addr, rd.len, hmax) && rd.i < |s0.reps|
    ensures CoversByte(rd.addr, rd.len, rd.y)
  {
    hide Reaches, Routed, Certified, SeesAcked;
    ReachesOn(s0, rd.p, rd.q);
    ReachesOn(s0, rd.q, rd.a);
    PieceInside(rd.segs, rd.addr, rd.len, rd.k, rd.y);
  }

  lemma RoutedGrows(a: State, b: State, c: State, i: nat, addr: nat, len: nat, hmax: Lsn)
    requires SafeInv(a) && Routed(a, b, c, i, addr, len, hmax)
    ensures SafeInv(c) && RouteGrows(a.route, c.route)
  {
    hide SafeInv, Reaches;
    RoutedSafe(a, b, c, i, addr, len, hmax);
    LaterTransitive(a, b, c);
  }

  lemma LostParts(s0: State, rd: Reading, h: Lsn, data: seq<u8>)
    requires Lost(s0, rd, h, data)
    ensures AckedWinner(rd.p, rd.y) > s0.trk.base && rd.e.pageSize > 0 && rd.i < |rd.e.reps|
    ensures Shown(rd.e, rd.i, h, rd.y) == s0.trk.base
  {
  }

  lemma WinnerIs(r: Route, h: Lsn, y: nat)
    ensures var w := Winner(r, h, y); w > r.login ==> w <= h && DurableOn(r, w, y)
  {
  }

  lemma AnswerIs(s0: State, rd: Reading, level: Lsn, blind: Lsn, hmax: Lsn, h: Lsn)
    requires Position(rd, level, blind) && Reached(|s0.reps|, s0.trk.base, IndexOf(rd.a)) && rd.i < |s0.reps|
    requires |rd.a.route.synced| == |rd.a.route.miss| == |s0.reps|
    requires SaysYes(IndexOf(rd.a), IndexOf(rd.b), IndexOf(rd.c), rd.i, rd.addr, rd.len, hmax)
    requires var w := Winner(rd.a.route, h, rd.y); w > rd.a.route.login && (w, rd.i) !in Held(rd.c)
    ensures var (a, b, c) := (IndexOf(rd.a), IndexOf(rd.b), IndexOf(rd.c));
      && Answered(|s0.reps|, s0.trk.base, level, blind, hmax, a, b, c, rd.i, rd.addr, rd.len)
      && !Holds(a, c, rd.i, h, rd.y)
  {
    hide Reached, SaysYes, MapLevel;
  }

  // ---------------------------------------------------------------- the exact condition

  lemma TimelyHolds(n: nat, login: Lsn, level: Lsn, blind: Lsn, hmax: Lsn, h: Lsn,
                    a: View, b: View, c: View, idx: nat, addr: nat, len: nat, y: nat)
    requires n > 0 && h <= hmax && Timely(login, level, blind, h) && CoversByte(addr, len, y)
    requires Answered(n, login, level, blind, hmax, a, b, c, idx, addr, len)
    ensures Holds(a, c, idx, h, y)
  {
    var held: Holdings :| Leads(View(Reset(n, login), held), a);
    var ops :| Done(View(Reset(n, login), held), ops, a);
    NeverRoutedStale(n, login, held, ops, a, b, c, idx, addr, len, hmax, h, y);
  }

  /** Some session of `n` members that starts at `login`. */
  lemma SomeSession(n: nat, login: Lsn) returns (s0: State, data: seq<u8>)
    requires n >= 3 && -1 <= login
    ensures Stage(s0, data) && FreshLogin(s0) && |s0.reps| == n && s0.trk.base == login
  {
    var content: Journal := map d | d in LsnRange(0, login) :: EmptySlot;
    s0 := AgreedLogin(n, 1, 0, content, login);
    data := [0];
    hide FreshLogin;
  }

  /**
   * A yes of eligible() is right exactly when it is timely: when the maps were read they
   * reflected nothing above the horizon, and everything at or below it that the scan did
   * not look at. At every other position some session gives a yes that loses an acked write.
   */
  lemma AnswerSoundExactly(n: nat, login: Lsn, level: Lsn, blind: Lsn, hmax: Lsn, h: Lsn)
    requires n >= 3 && -1 <= login <= level && login <= blind && h <= hmax
    ensures AnswerSound(n, login, level, blind, hmax, h) <==> Timely(login, level, blind, h)
  {
    hide Answered, Holds, Taken, Position, Lost, Stage, FreshLogin, CoversByte, Timely;
    if Timely(login, level, blind, h) {
      forall a: View, b: View, c: View, idx: nat, addr: nat, len: nat, y: nat
        | Answered(n, login, level, blind, hmax, a, b, c, idx, addr, len) && CoversByte(addr, len, y)
        ensures Holds(a, c, idx, h, y)
      {
        TimelyHolds(n, login, level, blind, hmax, h, a, b, c, idx, addr, len, y);
      }
    } else {
      var s0, data := SomeSession(n, login);
      var rd := UntimelyLoses(s0, data, level, blind, hmax, h);
      LostIsUnsound(s0, rd, level, blind, hmax, h, data);
    }
  }

  // ---------------------------------------------------------------- eligible() undisturbed

  /** Every yes of an undisturbed eligible() is right, with no fold under way and this fold and these horizons. */
  ghost predicate IndexSound(n: nat, login: Lsn, folded: Lsn, hmax: Lsn, h: Lsn) {
    forall v: View, idx: nat, addr: nat, len: nat, y: nat ::
      Passed(n, login, folded, hmax, v, idx, addr, len) && CoversByte(addr, len, y) ==> Holds(v, v, idx, h, y)
  }

  ghost predicate Passed(n: nat, login: Lsn, folded: Lsn, hmax: Lsn, v: View, idx: nat, addr: nat, len: nat) {
    && Reached(n, login, v) && v.r.flight.None? && v.r.folded == folded
    && idx < n && |v.r.synced| == |v.r.miss| == n && Eligible(v.r, idx, addr, len, hmax)
  }

  /**
   * Undisturbed, eligibility at `hmax` certifies a segment at horizon `h` for exactly the
   * horizons the fold has not passed (and, trivially, those that show no write of this
   * session): otherwise some session lets a stale member through, however large `hmax` is.
   */
  lemma EligibleSoundExactly(n: nat, login: Lsn, folded: Lsn, hmax: Lsn, h: Lsn)
    requires n >= 3 && -1 <= login <= folded && h <= hmax
    ensures IndexSound(n, login, folded, hmax, h) <==> h <= login || folded <= h
  {
    hide Holds, Passed, Taken, Position, Lost, Stage, FreshLogin, CoversByte, Eligible;
    if login < h < folded {
      var s0, data := SomeSession(n, login);
      var rd := FoldPassed(s0, data, folded, hmax, h);
      LostIsUnsound(s0, rd, folded, folded, hmax, h, data);
      PassedThen(n, login, folded, hmax, rd);
    } else {
      forall v: View, idx: nat, addr: nat, len: nat, y: nat
        | Passed(n, login, folded, hmax, v, idx, addr, len) && CoversByte(addr, len, y)
        ensures Holds(v, v, idx, h, y)
      {
        PassedHolds(n, login, folded, hmax, h, v, idx, addr, len, y);
      }
    }
  }

  lemma PassedThen(n: nat, login: Lsn, folded: Lsn, hmax: Lsn, rd: Reading)
    requires var (a, b, c) := (IndexOf(rd.a), IndexOf(rd.b), IndexOf(rd.c));
      Answered(n, login, folded, folded, hmax, a, b, c, rd.i, rd.addr, rd.len)
    requires rd.a.route.flight.None? && rd.a.route.folded == folded
    requires rd.i < |rd.a.route.synced| && rd.i < |rd.a.route.miss| && Eligible(rd.a.route, rd.i, rd.addr, rd.len, hmax)
    ensures Passed(n, login, folded, hmax, IndexOf(rd.a), rd.i, rd.addr, rd.len)
  {
    hide Reached, SaysYes, Eligible;
  }

  lemma PassedHolds(n: nat, login: Lsn, folded: Lsn, hmax: Lsn, h: Lsn, v: View, idx: nat, addr: nat, len: nat, y: nat)
    requires n > 0 && h <= hmax && (h <= login || folded <= h)
    requires Passed(n, login, folded, hmax, v, idx, addr, len) && CoversByte(addr, len, y)
    ensures Holds(v, v, idx, h, y)
  {
    var held: Holdings :| Leads(View(Reset(n, login), held), v);
    ResetAgrees(n, login, held);
    LeadsAgrees(View(Reset(n, login), held), v);
    if h > login && !Holds(v, v, idx, h, y) { EligibleHoldsWinner(v.r, v.held, idx, addr, len, hmax, h, y); }
  }
}
