/** Which bytes a read returns. */
module ReadSafety {
  import opened CraftTypes
  import Arith
  import opened Replica
  import opened Tracker
  import opened Router
  import opened Protocol
  import opened Exclusion
  import opened Runs
  import opened Pieces
  import opened ReadPlan
  import opened PlanAcross
  import opened Safety
  import opened SafetyRound

  // ---------------------------------------------------------------- bytes

  function ByteIn(c: Content, off: nat): u8 {
    if c.None? || off >= |c.value| then 0 else c.value[off]
  }

  /** The byte a replica serves at `y` for a read at horizon `h`. */
  function ServedByte(r: Rep, h: Lsn, y: nat): u8
    requires r.pageSize > 0 && JournalOk(r.pageSize, r.journal)
  {
    ByteIn(ReadBlock(r, h, y / r.pageSize), y % r.pageSize)
  }

  /** The byte a client write put at `y`. */
  function WrittenByte(w: Write, y: nat): u8 {
    if w.data.None? || !(w.addr <= y < w.addr + |w.data.value|) then 0 else w.data.value[y - w.addr]
  }

  lemma {:induction false} ChopByte(ps: nat, data: seq<u8>, k: nat, o: nat)
    requires ps > 0 && k < |Chop(ps, data)| && o < ps
    ensures ps * k + o < |data| && Chop(ps, data)[k][o] == data[ps * k + o]
  {
    if k > 0 {
      ChopByte(ps, data[ps..], k - 1, o);
      assert ps * (k - 1) + ps == ps * k;
    }
  }

  /** The page a journal slot holds for `y` contains the byte the client wrote there. */
  lemma PayloadByte(ps: nat, w: Write, y: nat)
    requires ps > 0 && Aligned(ps, w.addr, w.len) && (w.data.Some? ==> |w.data.value| == w.len)
    ensures Covers(SlotOf(ps, w.addr, w.len, w.data), y / ps) <==> w.addr <= y < w.addr + w.len
    ensures w.addr <= y < w.addr + w.len ==>
      ByteIn(PageAt(SlotOf(ps, w.addr, w.len, w.data), y / ps), y % ps) == WrittenByte(w, y)
  {
    Arith.BlockOfByte(ps, w.addr, w.len, y);
    if w.addr <= y < w.addr + w.len && w.data.Some? {
      Arith.OffsetInBlock(ps, w.addr, y);
      ChopByte(ps, w.data.value, y / ps - w.addr / ps, y % ps);
    }
  }

  // ---------------------------------------------------------------- the winner

  /** Covering a byte, as the tracker sees it and as a journal slot of the same write does. */
  lemma SlotCovers(s: State, i: nat, d: Lsn, y: nat)
    requires Linked(s) && DataOk(s) && i < |s.reps| && s.trk.base < d && HoldsAt(s.reps[i], d)
    ensures d in s.trk.slots && d in s.writes
    ensures Covers(s.reps[i].journal[d], y / s.pageSize) <==> CoversByteOf(s.trk.slots[d], y)
    ensures CoversByteOf(s.trk.slots[d], y) ==>
      ByteIn(PageAt(s.reps[i].journal[d], y / s.pageSize), y % s.pageSize) == WrittenByte(s.writes[d], y)
  {
    assert DatumOk(s, i, d);
    assert WriteOk(s, d);
    PayloadByte(s.pageSize, s.writes[d], y);
  }

  /** A slot that is not Void is under the planned top. */
  lemma NothingAbovePlan(t1: Trk, t3: Trk, h: Lsn, y: nat, d: Lsn)
    requires TrackerLater(t1, t3) && Certified(t1, h, y)
    requires t1.base < d <= h && d in t3.slots && !VoidAt(t3, d) && CoversByteOf(t3.slots[d], y)
    ensures d <= TopOn(t1, h, y)
  {
    CertifiedLater(t1, t3, h, y);
    assert OnByte(t3, d, y);
  }

  /** The planned winner is still acked later and covers the same bytes. */
  lemma PlannedStaysAcked(t1: Trk, t3: Trk, h: Lsn, y: nat)
    requires TrackerLater(t1, t3) && Certified(t1, h, y)
    ensures var w := TopOn(t1, h, y); w > t1.base ==> w <= h && AckedAt(t3, w) && CoversByteOf(t3.slots[w], y)
  {
    var w := TopOn(t1, h, y);
    if w > t1.base { assert EntryLater(t1.slots[w], t3.slots[w]); }
  }

  lemma HeldNotVoid(s: State, i: nat, d: Lsn)
    requires ExclInv(s) && FoundersFull(s) && i < |s.reps| && HoldsAt(s.reps[i], d)
    ensures !VoidAt(s.trk, d)
  {
    if VoidAt(s.trk, d) { VoidHeldByNone(s, d, i); }
  }

  lemma AckedIsDurableOn(s: State, d: Lsn, y: nat)
    requires SafeInv(s) && AckedAt(s.trk, d) && CoversByteOf(s.trk.slots[d], y)
    ensures DurableOn(s.route, d, y)
  {
  }

  /** What the maps reflect is at or below the frontier. */
  lemma LevelBehind(s: State)
    requires MarksOk(s) && Shape(s.route) && FlightOk(s.route, Held(s))
    ensures MapLevel(s.route) <= s.trk.frontier
  {
  }

  /** The winner of a byte at the map level is an acked write covering it. */
  lemma MappedWinnerAcked(s: State, y: nat)
    requires SafeInv(s)
    ensures var v := Winner(s.route, MapLevel(s.route), y);
      v > s.route.login ==> AckedAt(s.trk, v) && CoversByteOf(s.trk.slots[v], y)
  {
    var v := Winner(s.route, MapLevel(s.route), y);
    LevelBehind(s);
    if v > s.route.login { DurableIsAcked(s, v); }
  }

  lemma LoginIsBase(s: State)
    requires SafeInv(s)
    ensures s.route.login == s.trk.base && s.pageSize > 0
  {
  }

  /** A planned winner the maps reflect is the winner they reflect. */
  lemma MappedTop(t1: Trk, s2: State, h: Lsn, y: nat)
    requires SafeInv(s2) && TrackerLater(t1, s2.trk) && Certified(t1, h, y)
    requires t1.base < TopOn(t1, h, y) <= MapLevel(s2.route) <= h
    ensures Winner(s2.route, MapLevel(s2.route), y) == TopOn(t1, h, y) > s2.route.login
  {
    hide SafeInv, MapLevel, Certified, TrackerLater, DurableOn;
    var w, v := TopOn(t1, h, y), Winner(s2.route, MapLevel(s2.route), y);
    PlannedStaysAcked(t1, s2.trk, h, y);
    AckedIsDurableOn(s2, w, y);
    MappedWinnerAcked(s2, y);
    TrackerBase(t1, s2.trk);
    LoginIsBase(s2);
    NothingAbovePlan(t1, s2.trk, h, y, v);
  }

  /** A member whose map is clear holds the winner the maps reflect. */
  lemma MapShows(r: Route, held: Holdings, i: nat, addr: nat, len: nat, y: nat)
    requires MissesMarked(r, held) && i < |r.miss| && i < |r.synced| && MapClear(r, i, addr, len)
    requires CoversByte(addr, len, y)
    requires Winner(r, MapLevel(r), y) > r.login
    ensures (Winner(r, MapLevel(r), y), i) in held
  {
    assert MissMarked(r, held, i, y);
  }

  lemma MapShowsTop(t1: Trk, s2: State, i: nat, addr: nat, len: nat, h: Lsn, y: nat)
    requires SafeInv(s2) && TrackerLater(t1, s2.trk) && Certified(t1, h, y) && i < |s2.reps|
    requires MapClear(s2.route, i, addr, len) && CoversByte(addr, len, y)
    requires t1.base < TopOn(t1, h, y) <= MapLevel(s2.route) <= h
    ensures HoldsAt(s2.reps[i], TopOn(t1, h, y))
  {
    MappedTop(t1, s2, h, y);
    assert MissesMarked(s2.route, Held(s2)) && i < |s2.route.miss|;
    hide SafeInv, MissesMarked, Certified, MapLevel;
    MapShows(s2.route, Held(s2), i, addr, len, y);
  }

  // ---------------------------------------------------------------- serving

  /** The dLSN whose write member `i` shows at `y` for a read at `h`, or the login dLSN. */
  function Shown(s: State, i: nat, h: Lsn, y: nat): Lsn
    requires s.pageSize > 0 && i < |s.reps|
  {
    Top(s.reps[i].journal, s.trk.base, Max(h, s.reps[i].commit), y / s.pageSize)
  }

  /** What is shown is an acked write covering the byte, and not older than the planned winner. */
  lemma ShownIsAcked(t1: Trk, s3: State, i: nat, h: Lsn, y: nat)
    requires ExclInv(s3) && FoundersFull(s3) && TrackerLater(t1, s3.trk) && Certified(t1, h, y)
    requires i < |s3.reps|
    requires var w := TopOn(t1, h, y); w > t1.base ==> HoldsAt(s3.reps[i], w)
    ensures var t, w := Shown(s3, i, h, y), TopOn(t1, h, y);
      && w <= t
      && (t > s3.trk.base ==> AckedAt(s3.trk, t) && CoversByteOf(s3.trk.slots[t], y) && HoldsAt(s3.reps[i], t))
      && (s3.reps[i].commit <= h ==> t == w)
  {
    var t, w := Shown(s3, i, h, y), TopOn(t1, h, y);
    PlannedStaysAcked(t1, s3.trk, h, y);
    if w > t1.base { SlotCovers(s3, i, w, y); }
    if t > s3.trk.base {
      SlotCovers(s3, i, t, y);
      HeldNotVoid(s3, i, t);
      if t <= h {
        NothingAbovePlan(t1, s3.trk, h, y, t);
      } else {
        assert DatumOk(s3, i, t);
      }
    }
  }

  lemma SameAgreedPrefix(s0: State, s: State, i: nat)
    requires SafeInv(s0) && SafeInv(s) && Later(s0, s) && i < |s.reps| && s.reps[i].commit >= s.trk.base
    requires s0.reps[s0.anchor].commit >= s0.trk.base
    ensures Replay(s.pageSize, s.reps[i].journal, s.trk.base) ==
            Replay(s0.pageSize, s0.reps[s0.anchor].journal, s0.trk.base)
  {
    var a, b := s.reps[i], s0.reps[s0.anchor];
    Agreed(s, i);
    Agreed(s0, s0.anchor);
    SameBase(s0, s);
    LaterRecord(s0, s);
    hide SafeInv, Later, RepInv, Replay;
    ReplayDependsOnPrefix(s.pageSize, a.journal, b.journal, s.trk.base);
  }

  /** A member that has committed the login dLSN holds exactly the agreed content up to it. */
  lemma Agreed(s: State, i: nat)
    requires SafeInv(s) && i < |s.reps| && s.reps[i].commit >= s.trk.base
    ensures RepInv(s.reps[i]) && s.reps[i].pageSize == s.pageSize && s.anchor < |s.reps|
    ensures JournalOk(s.pageSize, s.reps[i].journal)
    ensures forall d :: 0 <= d <= s.trk.base ==>
      d in s.reps[i].journal && d in s.base && s.reps[i].journal[d] == s.base[d]
  {
    assert RepInv(s.reps[i]) && Wf(s);
    forall d | 0 <= d <= s.trk.base ensures d in s.reps[i].journal && d in s.base && s.reps[i].journal[d] == s.base[d] {
      assert EntryOk(s, i, d);
    }
  }

  lemma LaterRecord(s: State, s': State)
    requires Later(s, s')
    ensures s'.pageSize == s.pageSize && s'.base == s.base && s'.anchor == s.anchor
  {
  }

  /** The byte served is that of the top slot above `lo`, or what the replay up to `lo` shows. */
  lemma ServedIsTop(r: Rep, lo: Lsn, h: Lsn, y: nat)
    requires RepInv(r) && -1 <= lo <= r.commit
    ensures var t, x := Top(r.journal, lo, Max(h, r.commit), y / r.pageSize), y / r.pageSize;
      ServedByte(r, h, y) == ByteIn(if t > lo then PageAt(r.journal[t], x)
                                    else At(Replay(r.pageSize, r.journal, lo), x), y % r.pageSize)
  {
    ReadRefinesReplay(r, h, y / r.pageSize);
    ReplayIsTop(r.pageSize, r.journal, lo, Max(h, r.commit), y / r.pageSize);
  }

  /** The byte served is the shown write's, or what the anchor held at login when no session write is shown. */
  lemma ServedIsShown(s0: State, s: State, i: nat, h: Lsn, y: nat)
    requires SafeInv(s0) && SafeInv(s) && Later(s0, s) && i < |s.reps| && s.reps[i].commit >= s.trk.base
    requires s0.reps[s0.anchor].commit == s0.trk.base
    requires RepInv(s.reps[i]) && RepInv(s0.reps[s0.anchor])
    ensures var t := Shown(s, i, h, y);
      ServedByte(s.reps[i], h, y) ==
        if t > s.trk.base && t in s.writes then WrittenByte(s.writes[t], y)
        else ServedByte(s0.reps[s0.anchor], s0.trk.base, y)
  {
    ServedIsTop(s.reps[i], s.trk.base, h, y);
    if Shown(s, i, h, y) > s.trk.base {
      SlotCovers(s, i, Shown(s, i, h, y), y);
    } else {
      SameAgreedPrefix(s0, s, i);
      ServedIsTop(s0.reps[s0.anchor], s0.trk.base, s0.trk.base, y);
    }
  }

  // ---------------------------------------------------------------- the theorems

  /** The acked write a read of `y` must return, or the login dLSN. */
  function AckedWinner(s: State, y: nat): Lsn {
    LastAcked(s.trk, s.trk.highestAcked, y)
  }

  /** The byte of that write, or `loginByte` when the session wrote nothing there. */
  function ByteOf(s: State, d: Lsn, y: nat, loginByte: u8): u8 {
    if d > s.trk.base && d in s.writes then WrittenByte(s.writes[d], y) else loginByte
  }

  /** What the anchor serves at login. */
  ghost function LoginByte(s0: State, y: nat): u8
    requires FreshLogin(s0)
  {
    assert FreshMember(s0, s0.reps[s0.anchor]);
    ServedByte(s0.reps[s0.anchor], s0.trk.base, y)
  }

  /** Every segment's horizon is at most `hmax`. */
  predicate Within(segs: seq<Segment>, hmax: Lsn) {
    forall k :: 0 <= k < |segs| ==> segs[k].tag <= hmax
  }

  /** Byte `y` is in segment `k` of a plan of [addr, addr + len) made between `p` and `s1`. */
  ghost predicate Planned(p: State, s1: State, segs: seq<Segment>, addr: nat, len: nat, k: nat, y: nat) {
    SafePlan(p.trk, s1.trk, addr, len, segs) && k < |segs| && segs[k].addr <= y < segs[k].addr + segs[k].len
  }

  ghost predicate Reaches(s: State, s': State) {
    exists steps :: SafeRun(s, steps, s')
  }

  /** The scan of eligible() read slot `d` at some moment between `b` and `c`. */
  ghost predicate SlotPassed(b: State, c: State, d: Lsn, i: nat, addr: nat, len: nat) {
    exists u :: Reaches(b, u) && Reaches(u, c) && SlotClear(u.route, d, i, addr, len)
  }

  /**
   * eligible() lets member `i` through: the maps are read in `a`, the fold is loaded in
   * `b`, and every slot above it is read at some moment of its own before `c`.
   */
  ghost predicate Routed(a: State, b: State, c: State, i: nat, addr: nat, len: nat, hmax: Lsn) {
    && Reaches(a, b) && Reaches(b, c) && i < |a.route.synced| && i < |a.route.miss| && MapClear(a.route, i, addr, len)
    && forall d :: b.route.folded < d <= hmax ==> SlotPassed(b, c, d, i, addr, len)
  }

  /** When the maps were read they reflected nothing above `h`, and all at or below it that the scan did not see. */
  predicate InTime(a: State, b: State, c: State, h: Lsn) {
    Timely(a.route.login, MapLevel(a.route), Max(b.route.folded, c.route.trunc), h)
  }

  lemma ReachesSafe(s: State, s': State)
    requires SafeInv(s) && Reaches(s, s')
    ensures SafeInv(s') && Later(s, s')
  {
    var steps :| SafeRun(s, steps, s');
    RunKeepsSafe(s, steps, s');
  }

  /** Data of an acked write is never lost. */
  lemma StillHeld(s2: State, s3: State, i: nat, d: Lsn)
    requires EmptyOk(s3) && AckedOk(s3) && RepsLater(s2.reps, s3.reps) && i < |s2.reps| && s3.trk.base < d
    requires AckedAt(s3.trk, d) && HoldsAt(s2.reps[i], d)
    ensures HoldsAt(s3.reps[i], d)
  {
    assert RepLater(s2.reps[i], s3.reps[i]);
    AckedEntryHeld(s3, d, i);
  }

  /** A slot found clear in `u` is held there. */
  lemma ClearIsHeld(a: State, u: State, d: Lsn, i: nat, addr: nat, len: nat, y: nat)
    requires SafeInv(a) && SafeInv(u) && Later(a, u) && i < |u.reps|
    requires AckedAt(a.trk, d) && CoversByteOf(a.trk.slots[d], y) && CoversByte(addr, len, y)
    requires SlotClear(u.route, d, i, addr, len) && u.route.trunc < d
    ensures HoldsAt(u.reps[i], d)
  {
    AckedIsDurableOn(a, d, y);
    assert RouteGrows(a.route, u.route) && HoldersTrue(u.route, Held(u)) && Shape(u.route);
    hide SafeInv, Later, Shape, HoldersTrue, RouteGrows;
    SlotSeen(a.route, u.route, Held(u), d, i, addr, len, y);
  }

  /** An acked write is acked for good. */
  lemma AckedStays(t: Trk, t': Trk, d: Lsn)
    requires TrackerLater(t, t') && AckedAt(t, d)
    ensures AckedAt(t', d)
  {
    assert EntryLater(t.slots[d], t'.slots[d]);
  }

  /** A member the scan let through holds a planned winner above what the scan did not see. */
  lemma ScanShowsTop(a: State, b: State, c: State, d: Lsn, i: nat, addr: nat, len: nat, y: nat)
    requires SafeInv(a) && SafeInv(b) && SafeInv(c) && Later(a, b) && Later(a, c) && i < |a.reps| && i < |c.reps|
    requires AckedAt(a.trk, d) && CoversByteOf(a.trk.slots[d], y) && CoversByte(addr, len, y)
    requires SlotPassed(b, c, d, i, addr, len) && c.route.trunc < d && c.trk.base < d
    ensures HoldsAt(c.reps[i], d)
  {
    var u :| Reaches(b, u) && Reaches(u, c) && SlotClear(u.route, d, i, addr, len);
    hide SafeInv, Reaches;
    ReachesSafe(b, u);
    ReachesSafe(u, c);
    LaterTransitive(a, b, u);
    assert i < |u.reps| && u.route.trunc <= c.route.trunc;
    ClearIsHeld(a, u, d, i, addr, len, y);
    AckedStays(a.trk, c.trk, d);
    HeldLater(u, c, i, d);
  }

  lemma HeldLater(u: State, c: State, i: nat, d: Lsn)
    requires SafeInv(c) && Later(u, c) && i < |u.reps| && c.trk.base < d && AckedAt(c.trk, d) && HoldsAt(u.reps[i], d)
    ensures i < |c.reps| && HoldsAt(c.reps[i], d)
  {
    StillHeld(u, c, i, d);
  }

  lemma SameBase(a: State, c: State)
    requires SafeInv(a) && Later(a, c)
    ensures a.route.login == a.trk.base == c.trk.base && |c.reps| == |a.reps| && TrackerLater(a.trk, c.trk)
  {
  }

  lemma TrackerBase(t: Trk, t': Trk)
    requires TrackerLater(t, t')
    ensures t'.base == t.base
  {
  }

  /** A member routed to in time holds the planned winner when the scan is over. */
  lemma RoutedHolds(t1: Trk, a: State, b: State, c: State, i: nat, addr: nat, len: nat, hmax: Lsn, h: Lsn, y: nat)
    requires SafeInv(a) && SafeInv(b) && SafeInv(c) && Later(a, b) && Later(b, c) && TrackerLater(t1, a.trk)
    requires Routed(a, b, c, i, addr, len, hmax) && InTime(a, b, c, h) && h <= hmax
    requires Certified(t1, h, y) && CoversByte(addr, len, y) && i < |a.reps|
    ensures i < |c.reps| && (TopOn(t1, h, y) > t1.base ==> HoldsAt(c.reps[i], TopOn(t1, h, y)))
  {
    hide SafeInv, Later, Reaches, SlotPassed, Certified, MapLevel, TrackerLater;
    var w := TopOn(t1, h, y);
    LaterTransitive(a, b, c);
    SameBase(a, c);
    assert t1.base == a.trk.base by { TrackerBase(t1, a.trk); }
    if w > t1.base {
      PlannedStaysAcked(t1, a.trk, h, y);
      if w > Max(b.route.folded, c.route.trunc) {
        assert SlotPassed(b, c, w, i, addr, len);
        ScanShowsTop(a, b, c, w, i, addr, len, y);
      } else {
        MapShowsTop(t1, a, i, addr, len, h, y);
        AckedStays(a.trk, c.trk, w);
        HeldLater(a, c, i, w);
      }
    }
  }

  /** A member whose map was clear has committed at least the login dLSN in every later state. */
  lemma ClearIsCommitted(a: State, s: State, addr: nat, len: nat, i: nat)
    requires MarksOk(a) && i < |a.reps| && i < |a.route.miss| && MapClear(a.route, i, addr, len)
    requires RepsLater(a.reps, s.reps) && a.route.login == s.trk.base
    ensures s.reps[i].commit >= s.trk.base
  {
    assert RepLater(a.reps[i], s.reps[i]);
  }

  /**
   * Read safety while everything else goes on. A plan is made between `p` and `s1`; the
   * maps are read in `s2`, the fold is loaded in `s3`, the slots are read one by one until
   * `s4`; the member serves in `s5`. If the maps were read in time for the segment's
   * horizon, every byte comes from a write that is acked when it is served and is not older
   * than the highest write acked when the plan began; no in-flight, failed or Empty write
   * is ever returned.
   */
  lemma ReadSafe(s0: State, p: State, s1: State, s2: State, s3: State, s4: State, s5: State,
                 addr: nat, len: nat, segs: seq<Segment>, hmax: Lsn, i: nat, k: nat, y: nat) returns (v: Lsn)
    requires FreshLogin(s0) && Reaches(s0, p) && Reaches(p, s1) && Reaches(s1, s2) && Reaches(s4, s5)
    requires Planned(p, s1, segs, addr, len, k, y) && Within(segs, hmax) && i < |s0.reps|
    requires Routed(s2, s3, s4, i, addr, len, hmax) && InTime(s2, s3, s4, segs[k].tag)
    ensures i < |s5.reps| && RepInv(s5.reps[i]) && s5.pageSize > 0
    ensures AckedWinner(p, y) <= v == Shown(s5, i, segs[k].tag, y)
    ensures v > s5.trk.base ==> AckedAt(s5.trk, v) && CoversByteOf(s5.trk.slots[v], y) && v in s5.writes
    ensures ServedByte(s5.reps[i], segs[k].tag, y) == ByteOf(s5, v, y, LoginByte(s0, y))
    ensures s5.reps[i].commit <= segs[k].tag ==> v == TopOn(s1.trk, segs[k].tag, y)
  {
    hide SafePlan, Routed, InTime, Within, Reaches, FreshLogin;
    FreshSafe(s0);
    ReachesSafe(s0, p);
    ReachesSafe(p, s1);
    ReachesSafe(s1, s2);
    RoutedSafe(s2, s3, s4, i, addr, len, hmax);
    ReachesSafe(s4, s5);
    v := ReadSafeCore(s0, p, s1, s2, s3, s4, s5, addr, len, segs, hmax, i, k, y);
  }

  lemma RoutedSafe(a: State, b: State, c: State, i: nat, addr: nat, len: nat, hmax: Lsn)
    requires SafeInv(a) && Routed(a, b, c, i, addr, len, hmax)
    ensures SafeInv(b) && SafeInv(c) && Later(a, b) && Later(b, c)
  {
    ReachesSafe(a, b);
    ReachesSafe(b, c);
  }

  /** What is shown in `s5`, from the plan and the route. */
  lemma ShownAfterRoute(t1: Trk, s2: State, s3: State, s4: State, s5: State,
                        addr: nat, len: nat, hmax: Lsn, i: nat, h: Lsn, y: nat)
    requires SafeInv(s2) && SafeInv(s3) && SafeInv(s4) && SafeInv(s5)
    requires Later(s2, s3) && Later(s3, s4) && Later(s4, s5) && TrackerLater(t1, s2.trk) && TrackerLater(t1, s5.trk)
    requires Routed(s2, s3, s4, i, addr, len, hmax) && InTime(s2, s3, s4, h) && h <= hmax
    requires Certified(t1, h, y) && CoversByte(addr, len, y) && i < |s2.reps|
    ensures i < |s5.reps| && s5.reps[i].commit >= s5.trk.base
    ensures var t, w := Shown(s5, i, h, y), TopOn(t1, h, y);
      && w <= t
      && (t > s5.trk.base ==> AckedAt(s5.trk, t) && CoversByteOf(s5.trk.slots[t], y) && HoldsAt(s5.reps[i], t))
      && (s5.reps[i].commit <= h ==> t == w)
  {
    RoutedHolds(t1, s2, s3, s4, i, addr, len, hmax, h, y);
    LaterTransitive(s2, s3, s4);
    LaterTransitive(s2, s4, s5);
    PlannedStaysAcked(t1, s5.trk, h, y);
    if TopOn(t1, h, y) > t1.base { StillHeld(s4, s5, i, TopOn(t1, h, y)); }
    ClearIsCommitted(s2, s5, addr, len, i);
    ShownIsAcked(t1, s5, i, h, y);
  }

  lemma LaterTracker(a: State, b: State)
    requires Later(a, b)
    ensures TrackerLater(a.trk, b.trk) && b.trk.base == a.trk.base
  {
  }

  lemma AckedSeen(t0: Trk, t: Trk, h: Lsn, y: nat)
    requires SeesAcked(t0, t, h, y) && t.base == t0.base
    ensures LastAcked(t0, t0.highestAcked, y) <= TopOn(t, h, y)
  {
  }

  /** The byte served in `s5`, by what is shown. */
  lemma FinishRead(s0: State, s5: State, i: nat, h: Lsn, y: nat)
    requires FreshLogin(s0) && SafeInv(s0) && SafeInv(s5) && Later(s0, s5) && i < |s5.reps|
    requires s5.reps[i].commit >= s5.trk.base
    requires var t := Shown(s5, i, h, y); t > s5.trk.base ==> AckedAt(s5.trk, t)
    ensures RepInv(s5.reps[i])
    ensures var v := Shown(s5, i, h, y);
      && (v > s5.trk.base ==> v in s5.writes)
      && ServedByte(s5.reps[i], h, y) == ByteOf(s5, v, y, LoginByte(s0, y))
  {
    assert FreshMember(s0, s0.reps[s0.anchor]);
    assert Wf(s5) && RepsOk(s5) && RepInv(s5.reps[i]);
    hide SafeInv, Later;
    ServedIsShown(s0, s5, i, h, y);
  }

  lemma WinnerIsLast(s: State, y: nat)
    ensures AckedWinner(s, y) == LastAcked(s.trk, s.trk.highestAcked, y)
  {
  }

  lemma PlannedByte(t0: Trk, t: Trk, addr: nat, len: nat, segs: seq<Segment>, k: nat, y: nat)
    requires SafePlan(t0, t, addr, len, segs) && k < |segs| && segs[k].addr <= y < segs[k].addr + segs[k].len
    ensures Certified(t, segs[k].tag, y) && SeesAcked(t0, t, segs[k].tag, y) && CoversByte(addr, len, y)
  {
    hide Certified, SeesAcked;
    PieceInside(segs, addr, len, k, y);
  }

  lemma ReadSafeCore(s0: State, p: State, s1: State, s2: State, s3: State, s4: State, s5: State,
                     addr: nat, len: nat, segs: seq<Segment>, hmax: Lsn, i: nat, k: nat, y: nat) returns (v: Lsn)
    requires FreshLogin(s0) && SafeInv(s0) && SafeInv(p) && SafeInv(s2) && SafeInv(s3) && SafeInv(s4) && SafeInv(s5)
    requires Later(s0, p) && Later(p, s1) && Later(s1, s2) && Later(s2, s3) && Later(s3, s4) && Later(s4, s5)
    requires Planned(p, s1, segs, addr, len, k, y) && Within(segs, hmax) && i < |s0.reps|
    requires Routed(s2, s3, s4, i, addr, len, hmax) && InTime(s2, s3, s4, segs[k].tag)
    ensures i < |s5.reps| && RepInv(s5.reps[i]) && s5.pageSize > 0
    ensures AckedWinner(p, y) <= v == Shown(s5, i, segs[k].tag, y)
    ensures v > s5.trk.base ==> AckedAt(s5.trk, v) && CoversByteOf(s5.trk.slots[v], y) && v in s5.writes
    ensures ServedByte(s5.reps[i], segs[k].tag, y) == ByteOf(s5, v, y, LoginByte(s0, y))
    ensures s5.reps[i].commit <= segs[k].tag ==> v == TopOn(s1.trk, segs[k].tag, y)
  {
    hide Routed, InTime, SafePlan, Certified, SafeInv, Later, FreshLogin, SeesAcked, TrackerLater, AckedWinner, Tiles;
    var h, t1 := segs[k].tag, s1.trk;
    PlannedByte(p.trk, t1, addr, len, segs, k, y);
    LaterTransitive(s2, s3, s4);
    LaterTransitive(s2, s4, s5);
    LaterTransitive(s1, s2, s5);
    LaterTransitive(s0, p, s1);
    LaterTransitive(s0, s1, s2);
    LaterTransitive(s0, s1, s5);
    SameBase(s0, s2);
    SameBase(s0, p);
    LaterTracker(s1, s2);
    LaterTracker(s1, s5);
    ShownAfterRoute(t1, s2, s3, s4, s5, addr, len, hmax, i, h, y);
    LoginIsBase(s5);
    v := Shown(s5, i, h, y);
    AckedSeen(p.trk, t1, h, y);
    WinnerIsLast(p, y);
    FinishRead(s0, s5, i, h, y);
  }

  /**
   * The same read taken in one state with no fold under way: every byte is exactly that of
   * the highest acked write covering it.
   */
  lemma ReadSafeAtomic(s0: State, s: State, addr: nat, len: nat, segs: seq<Segment>, hmax: Lsn, i: nat, k: nat, y: nat)
    requires FreshLogin(s0) && Reaches(s0, s) && s.route.flight.None? && i < |s0.reps|
    requires PlanOk(s.trk, addr, len, segs) && k < |segs| && segs[k].addr <= y < segs[k].addr + segs[k].len
    requires Within(segs, hmax) && i < |s.route.synced| && i < |s.route.miss| && Eligible(s.route, i, addr, len, hmax)
    ensures i < |s.reps| && RepInv(s.reps[i])
    ensures ServedByte(s.reps[i], segs[k].tag, y) == ByteOf(s, AckedWinner(s, y), y, LoginByte(s0, y))
  {
    hide SafeInv, SafeRun, SafePlan, Routed, Reaches, PlanOk, FreshLogin, InTime, Eligible, BestHorizon, TrkInv, Later;
    PlanFacts(s.trk, addr, len, segs, k, y);
    FreshSafe(s0);
    ReachesSafe(s0, s);
    StateExact(s);
    PlanOkIsSafe(s.trk, addr, len, segs);
    BestHorizonShowsLastAcked(s.trk, segs[k].tag, y);
    AtOnce(s, i, addr, len, hmax, segs[k].tag);
    var v := ReadSafe(s0, s, s, s, s, s, s, addr, len, segs, hmax, i, k, y);
  }

  lemma PlanFacts(t: Trk, addr: nat, len: nat, segs: seq<Segment>, k: nat, y: nat)
    requires PlanOk(t, addr, len, segs) && k < |segs| && segs[k].addr <= y < segs[k].addr + segs[k].len
    ensures BestHorizon(t, segs[k].tag, y) && t.frontier <= segs[k].tag
  {
  }

  lemma StateExact(s: State)
    requires SafeInv(s)
    ensures TrkInv(s.trk) && s.route.trunc <= s.route.folded <= s.trk.frontier
    ensures forall d :: AckedAt(s.trk, d) ==> d <= s.trk.highestAcked
  {
  }

  /** With nothing going on, the two reads of eligible() are of one state and in time. */
  lemma AtOnce(s: State, i: nat, addr: nat, len: nat, hmax: Lsn, h: Lsn)
    requires i < |s.route.synced| && i < |s.route.miss| && Eligible(s.route, i, addr, len, hmax)
    requires s.route.flight.None? && s.route.trunc <= s.route.folded <= h
    ensures Reaches(s, s) && Routed(s, s, s, i, addr, len, hmax) && InTime(s, s, s, h)
  {
    assert SafeRun(s, [], s);
    hide SafeRun;
    assert Reaches(s, s);
    forall d | s.route.folded < d <= hmax ensures SlotPassed(s, s, d, i, addr, len) {
      assert SlotClear(s.route, d, i, addr, len);
    }
  }
}
