/**
 * A plan computed while resolves go on. compute() loads F and Ha and then reads the slots
 * one by one, twice; every reading is of its own moment. What it arrives at is still safe
 * for the tracker as it is when the plan is done.
 */
module PlanAcross {
  import opened CraftTypes
  import Arith
  import opened Pieces
  import opened Tracker
  import opened ReadPlan
  import opened PlanSpec
  import opened Runs

  /** Each slot and each watermark of `b` was read no earlier than that of `a`. */
  ghost predicate Seen(a: Trk, b: Trk) {
    && b.base == a.base && a.frontier <= b.frontier && a.highestAcked <= b.highestAcked
    && (forall d :: d in a.slots ==> d in b.slots && EntryLater(a.slots[d], b.slots[d]))
    && a.done <= b.done
  }

  /**
   * What compute() read: `one` in its pass for the lowest hit, `two` in its winner pass,
   * between `t0` and `t`. F and Ha are loaded once, and a slot the first pass hopped over
   * as completed is visible to the second.
   */
  ghost predicate ReadBetween(t0: Trk, one: Trk, two: Trk, t: Trk) {
    && Seen(t0, one) && Seen(one, two) && Seen(two, t)
    && two.frontier == one.frontier && two.highestAcked == one.highestAcked
    && (forall d :: d in one.done ==> d in two.slots)
  }

  /** The plan made of these readings; `PlanOf` is the case in which nothing changes meanwhile. */
  ghost function PlanSeen(one: Trk, two: Trk, lba: nat, scanCap: int, addr: nat, len: nat): (segs: seq<Segment>)
    requires -1 <= one.frontier
  {
    var F, Ha := one.frontier, one.highestAcked;
    if F >= Ha then [Piece(addr, len, F)] else
    var umin := LowestHit(one, addr, len, F + 1, Ha);
    if umin < 0 then [Piece(addr, len, Ha)]
    else if Gap(one, F + 1, Ha) || Ha - umin > scanCap || lba == 0 then []
    else if len / lba == 0 || len / lba > MAX_BLOCKS then []
    else SplitOf(two, umin, addr, lba, len / lba)
  }

  lemma PlanOfIsSeen(t: Trk, lba: nat, scanCap: int, addr: nat, len: nat)
    requires -1 <= t.frontier
    ensures PlanSeen(t, t, lba, scanCap, addr, len) == PlanOf(t, lba, scanCap, addr, len)
  {
  }

  // ---------------------------------------------------------------- what a horizon has to be

  /**
   * At `h` an acked write or nothing is on top of `y`, and everything above it is visible: no
   * later resolve changes that.
   */
  ghost predicate Certified(t: Trk, h: Lsn, y: nat) {
    t.base <= h && SafeAt(t, h, y) && forall d :: TopOn(t, h, y) < d <= h ==> d in t.slots
  }

  /** No write on `y` acked in `t0` is above what `t` shows at `h`. */
  ghost predicate SeesAcked(t0: Trk, t: Trk, h: Lsn, y: nat) {
    forall d :: AckedAt(t0, d) && CoversByteOf(t0.slots[d], y) ==> d <= TopOn(t, h, y)
  }

  /** A plan made between `t0` and `t` that a read may use. */
  ghost predicate SafePlan(t0: Trk, t: Trk, addr: nat, len: nat, segs: seq<Segment>) {
    && Tiles(segs, addr, len)
    && (forall k, y: nat :: 0 <= k < |segs| && segs[k].addr <= y < segs[k].addr + segs[k].len ==>
          Certified(t, segs[k].tag, y) && SeesAcked(t0, t, segs[k].tag, y))
  }

  lemma BestIsCertified(t: Trk, h: Lsn, y: nat)
    requires TrkInv(t) && BestHorizon(t, h, y)
    ensures Certified(t, h, y) && SeesAcked(t, t, h, y)
  {
    forall d | AckedAt(t, d) && CoversByteOf(t.slots[d], y) ensures d <= TopOn(t, h, y) {
      BestHorizonSeesAcked(t, h, y, d);
      assert OnByte(t, d, y);
    }
  }

  /** A plan taken in one moment is safe. */
  lemma PlanOkIsSafe(t: Trk, addr: nat, len: nat, segs: seq<Segment>)
    requires TrkInv(t) && PlanOk(t, addr, len, segs)
    ensures SafePlan(t, t, addr, len, segs)
  {
    forall k, y: nat | 0 <= k < |segs| && segs[k].addr <= y < segs[k].addr + segs[k].len
      ensures Certified(t, segs[k].tag, y) && SeesAcked(t, t, segs[k].tag, y)
    {
      BestIsCertified(t, segs[k].tag, y);
    }
  }

  /** What is certified on some readings is certified, with the same top, on any later ones. */
  lemma CertifiedLater(a: Trk, b: Trk, h: Lsn, y: nat)
    requires Certified(a, h, y) && b.base == a.base
    requires forall d :: d in a.slots ==> d in b.slots && EntryLater(a.slots[d], b.slots[d])
    ensures Certified(b, h, y) && TopOn(b, h, y) == TopOn(a, h, y)
  {
    var w := TopOn(a, h, y);
    forall d | w < d <= h ensures d in b.slots && !OnByte(b, d, y) {
      assert d in a.slots && !OnByte(a, d, y) && EntryLater(a.slots[d], b.slots[d]);
    }
    if w > a.base { assert EntryLater(a.slots[w], b.slots[w]) && OnByte(b, w, y); }
  }

  // ---------------------------------------------------------------- the three outcomes

  /** Everything at or below an earlier reading of F is resolved. */
  lemma BelowFrontier(one: Trk, t: Trk, d: Lsn)
    requires TrkInv(t) && Seen(one, t) && t.base < d <= one.frontier
    ensures ResolvedAt(t, d)
  {
    assert d in t.done;
  }

  /** Nothing unresolved at or below `h` on `y`: the horizon is safe, and shows every acked write up to it. */
  lemma ResolvedIsCertified(t0: Trk, t: Trk, h: Lsn, y: nat)
    requires TrkInv(t0) && Seen(t0, t) && t.base <= h && t0.highestAcked <= h
    requires forall d :: t.base < d <= h ==> d in t.slots && (OnByte(t, d, y) ==> AckedAt(t, d))
    ensures Certified(t, h, y) && SeesAcked(t0, t, h, y)
  {
    forall d | AckedAt(t0, d) && CoversByteOf(t0.slots[d], y) ensures d <= TopOn(t, h, y) {
      assert EntryLater(t0.slots[d], t.slots[d]) && OnByte(t, d, y);
    }
  }

  lemma FrontierIsSafe(t0: Trk, one: Trk, t: Trk, y: nat)
    requires TrkInv(t0) && TrkInv(t) && Seen(t0, one) && Seen(one, t) && Seen(t0, t)
    requires one.frontier >= one.highestAcked
    ensures Certified(t, one.frontier, y) && SeesAcked(t0, t, one.frontier, y)
  {
    forall d | t.base < d <= one.frontier ensures d in t.slots && (OnByte(t, d, y) ==> AckedAt(t, d)) {
      BelowFrontier(one, t, d);
    }
    ResolvedIsCertified(t0, t, one.frontier, y);
  }

  /** Below the lowest hit everything on the range is resolved by the time the plan is done. */
  lemma BelowHit(one: Trk, t: Trk, addr: nat, len: nat, d: Lsn, y: nat)
    requires TrkInv(t) && Seen(one, t) && addr <= y < addr + len
    requires t.base < d && (d <= one.frontier || !Hits(one, addr, len, d))
    ensures d in t.slots && (OnByte(t, d, y) ==> AckedAt(t, d))
  {
    if d <= one.frontier {
      BelowFrontier(one, t, d);
    } else if d in one.done {
      assert d in t.done;
    } else {
      assert EntryLater(one.slots[d], t.slots[d]);
    }
  }

  lemma NoHitIsSafe(t0: Trk, one: Trk, t: Trk, addr: nat, len: nat, y: nat)
    requires TrkInv(t0) && TrkInv(t) && Seen(t0, one) && Seen(one, t) && Seen(t0, t)
    requires one.frontier < one.highestAcked && addr <= y < addr + len
    requires -1 <= one.frontier && LowestHit(one, addr, len, one.frontier + 1, one.highestAcked) == -1
    ensures Certified(t, one.highestAcked, y) && SeesAcked(t0, t, one.highestAcked, y)
  {
    forall d | t.base < d <= one.highestAcked ensures d in t.slots && (OnByte(t, d, y) ==> AckedAt(t, d)) {
      BelowHit(one, t, addr, len, d, y);
    }
    ResolvedIsCertified(t0, t, one.highestAcked, y);
  }

  /** The winner pass reads nothing below the lowest hit, so what it finds does not depend on it. */
  lemma {:induction false} FenceSame(a: Trk, b: Trk, lo: Lsn, k: Lsn, y: nat)
    requires 0 <= lo && forall d :: lo <= d <= k ==> OnByte(a, d, y) == OnByte(b, d, y)
    requires forall d :: lo <= d <= k && OnByte(a, d, y) ==> AckedAt(a, d) == AckedAt(b, d)
    ensures Fence(a, lo, k, y) == Fence(b, lo, k, y)
    decreases k - lo + 1
  {
    if k >= lo { FenceSame(a, b, lo, k - 1, y); }
  }

  /** `two` where the winner pass read it, the end of the plan below. */
  function Patched(two: Trk, t: Trk, umin: Lsn): (p: Trk)
    ensures p.base == two.base && p.highestAcked == two.highestAcked && p.frontier == two.frontier
    ensures forall d :: d in p.slots <==> if d < umin then d in t.slots else d in two.slots
    ensures forall d :: d in p.slots ==> p.slots[d] == if d < umin then t.slots[d] else two.slots[d]
  {
    two.(slots := map d | d in t.slots.Keys + two.slots.Keys && (if d < umin then d in t.slots else d in two.slots) ::
           if d < umin then t.slots[d] else two.slots[d])
  }

  lemma WalkIsSafe(t0: Trk, one: Trk, two: Trk, t: Trk, addr: nat, len: nat, umin: Lsn, y: nat)
    requires TrkInv(t0) && TrkInv(t) && ReadBetween(t0, one, two, t) && Seen(one, t) && Seen(t0, two) && Seen(t0, t)
    requires one.frontier < one.highestAcked && -1 <= one.frontier && addr <= y < addr + len
    requires umin == LowestHit(one, addr, len, one.frontier + 1, one.highestAcked) && umin >= 0
    requires !Gap(one, one.frontier + 1, one.highestAcked)
    ensures var h := HorizonOf(two, umin, two.highestAcked, y); Certified(t, h, y) && SeesAcked(t0, t, h, y)
  {
    var ha, p := two.highestAcked, Patched(two, t, umin);
    forall d | t.base < d < umin ensures d in t.slots && (OnByte(t, d, y) ==> AckedAt(t, d)) {
      BelowHit(one, t, addr, len, d, y);
    }
    forall d | umin <= d <= ha ensures d in two.slots {
      assert !GapAt(one, d);
    }
    FenceSame(two, p, umin, ha, y);
    FenceSound(p, umin, ha, y);
    var u := Fence(p, umin, ha, y);
    var h := Under(u, ha);
    assert Certified(p, h, y);
    PatchedLater(two, t, umin);
    CertifiedLater(p, t, h, y);
    PatchedSees(t0, two, t, umin, u, y);
  }

  lemma PatchedLater(two: Trk, t: Trk, umin: Lsn)
    requires Seen(two, t)
    ensures forall d :: d in Patched(two, t, umin).slots ==>
      d in t.slots && EntryLater(Patched(two, t, umin).slots[d], t.slots[d])
  {
  }

  /** An acked write is never above what the walk leaves on top. */
  lemma PatchedSees(t0: Trk, two: Trk, t: Trk, umin: Lsn, u: Lsn, y: nat)
    requires TrkInv(t0) && Seen(t0, two) && Seen(two, t) && Seen(t0, t)
    requires var p := Patched(two, t, umin); Fenced(p, two.highestAcked, y, u)
    requires t.base <= Under(u, two.highestAcked)
    requires TopOn(t, Under(u, two.highestAcked), y) == TopOn(Patched(two, t, umin), Under(u, two.highestAcked), y)
    ensures SeesAcked(t0, t, Under(u, two.highestAcked), y)
  {
    var p, h := Patched(two, t, umin), Under(u, two.highestAcked);
    forall d | AckedAt(t0, d) && CoversByteOf(t0.slots[d], y) ensures d <= TopOn(t, h, y) {
      assert EntryLater(t0.slots[d], two.slots[d]) && EntryLater(t0.slots[d], t.slots[d]);
      assert OnByte(p, d, y) && AckedAt(p, d);
      assert TopOn(p, d, y) == d;
      assert SafeAt(p, d, y);
      assert d <= two.highestAcked;
      assert d <= h;
    }
  }

  // ---------------------------------------------------------------- the plan

  /** Bytes of one block share what is on top of them. */
  lemma SameBlockCertified(t0: Trk, t: Trk, lba: nat, h: Lsn, z: nat, y: nat)
    requires lba > 0 && AlignedSlots(t, lba) && Seen(t0, t) && z / lba == y / lba
    requires Certified(t, h, z) && SeesAcked(t0, t, h, z)
    ensures Certified(t, h, y) && SeesAcked(t0, t, h, y)
  {
    forall d ensures OnByte(t, d, z) == OnByte(t, d, y)
      ensures d in t.slots ==> CoversByteOf(t.slots[d], z) == CoversByteOf(t.slots[d], y)
    {
      if d in t.slots {
        Arith.BlockOfByte(lba, t.slots[d].addr, t.slots[d].len, z);
        Arith.BlockOfByte(lba, t.slots[d].addr, t.slots[d].len, y);
      }
    }
    SameTop(t, h, z, y);
    forall d | AckedAt(t0, d) && CoversByteOf(t0.slots[d], y) ensures d <= TopOn(t, h, y) {
      assert EntryLater(t0.slots[d], t.slots[d]);
    }
  }

  lemma SplitIsSafe(t0: Trk, one: Trk, two: Trk, t: Trk, addr: nat, len: nat, lba: nat, umin: Lsn, k: nat, y: nat)
    requires TrkInv(t0) && TrkInv(t) && ReadBetween(t0, one, two, t) && Seen(one, t) && Seen(t0, two) && Seen(t0, t)
    requires lba > 0 && AlignedSlots(t, lba) && addr % lba == 0 && len % lba == 0 && len / lba > 0
    requires one.frontier < one.highestAcked && -1 <= one.frontier && !Gap(one, one.frontier + 1, one.highestAcked)
    requires umin == LowestHit(one, addr, len, one.frontier + 1, one.highestAcked) && umin >= 0
    requires var segs := Coalesce(Horizons(two, umin, addr, lba, len / lba), addr, lba);
      k < |segs| && segs[k].addr <= y < segs[k].addr + segs[k].len
    ensures var h := Coalesce(Horizons(two, umin, addr, lba, len / lba), addr, lba)[k].tag;
      Certified(t, h, y) && SeesAcked(t0, t, h, y)
  {
    var n, hs := len / lba, Horizons(two, umin, addr, lba, len / lba);
    var segs := Coalesce(hs, addr, lba);
    CoalesceGroups(hs, addr, lba);
    assert n * lba == len by { var _ := Arith.Whole(lba, len); }
    PieceInside(segs, addr, len, k, y);
    var b := BlockOf(addr, lba, n, y);
    var z := BlockAt(addr, lba, b);
    assert PieceOk(hs, addr, lba, segs[k]);
    Arith.BlockOfByte(lba, segs[k].addr, segs[k].len, y);
    Arith.BlockOfByte(lba, segs[k].addr, segs[k].len, z);
    Arith.BlockOfByte(lba, addr, len, y);
    Arith.BlockOfByte(lba, addr, len, z);
    hide Certified, SeesAcked, ReadBetween, Seen, TrkInv, Gap, LowestHit, AlignedSlots, Coalesce;
    WalkIsSafe(t0, one, two, t, addr, len, umin, z);
    SameBlockCertified(t0, t, lba, segs[k].tag, z, y);
  }

  lemma SeenThen(a: Trk, b: Trk, c: Trk)
    requires Seen(a, b) && Seen(b, c)
    ensures Seen(a, c)
  {
    forall d | d in a.slots ensures d in c.slots && EntryLater(a.slots[d], c.slots[d]) {
      assert EntryLater(a.slots[d], b.slots[d]) && EntryLater(b.slots[d], c.slots[d]);
    }
  }

  lemma SplitPlanIsSafe(t0: Trk, one: Trk, two: Trk, t: Trk, addr: nat, len: nat, lba: nat, umin: Lsn)
    requires TrkInv(t0) && TrkInv(t) && ReadBetween(t0, one, two, t) && Seen(one, t) && Seen(t0, two) && Seen(t0, t)
    requires lba > 0 && AlignedSlots(t, lba) && addr % lba == 0 && len % lba == 0 && len / lba > 0
    requires one.frontier < one.highestAcked && -1 <= one.frontier && !Gap(one, one.frontier + 1, one.highestAcked)
    requires umin == LowestHit(one, addr, len, one.frontier + 1, one.highestAcked) && umin >= 0
    ensures var segs := SplitOf(two, umin, addr, lba, len / lba); segs != [] ==> SafePlan(t0, t, addr, len, segs)
  {
    hide Certified, SeesAcked, ReadBetween, Seen, TrkInv, Gap, LowestHit, AlignedSlots, Coalesce, PieceOk;
    var segs := Coalesce(Horizons(two, umin, addr, lba, len / lba), addr, lba);
    forall k, y: nat | 0 <= k < |segs| && segs[k].addr <= y < segs[k].addr + segs[k].len
      ensures Certified(t, segs[k].tag, y) && SeesAcked(t0, t, segs[k].tag, y)
    {
      SplitIsSafe(t0, one, two, t, addr, len, lba, umin, k, y);
    }
    CoalesceGroups(Horizons(two, umin, addr, lba, len / lba), addr, lba);
    assert len / lba * lba == len by { var _ := Arith.Whole(lba, len); }
  }

  /**
   * A plan computed across resolves is safe: whatever moment each slot was read at, at the
   * end of the plan every byte's horizon shows an acked write or nothing of the session,
   * no later resolve changes that, and no write acked when the plan began is above it.
   */
  lemma PlanIsSafe(t0: Trk, one: Trk, two: Trk, t: Trk, lba: nat, scanCap: int, addr: nat, len: nat)
    requires TrkInv(t0) && TrkInv(t) && ReadBetween(t0, one, two, t) && len > 0
    requires lba > 0 ==> AlignedSlots(t, lba) && addr % lba == 0 && len % lba == 0
    ensures -1 <= one.frontier
    ensures var segs := PlanSeen(one, two, lba, scanCap, addr, len); segs != [] ==> SafePlan(t0, t, addr, len, segs)
  {
    hide SafePlan, Certified, SeesAcked, TrkInv, Seen, SplitOf, LowestHit, Gap, AlignedSlots;
    SeenThen(one, two, t);
    SeenThen(t0, one, two);
    SeenThen(t0, one, t);
    FrontierSeen(t0, one);
    var F, Ha := one.frontier, one.highestAcked;
    if F >= Ha {
      WholeIsSafe(t0, one, t, addr, len, F);
    } else if LowestHit(one, addr, len, F + 1, Ha) == -1 {
      WholeIsSafe(t0, one, t, addr, len, Ha);
    } else if !Gap(one, F + 1, Ha) && lba > 0 && len / lba > 0 {
      SplitPlanIsSafe(t0, one, two, t, addr, len, lba, LowestHit(one, addr, len, F + 1, Ha));
    }
  }

  lemma FrontierSeen(t0: Trk, one: Trk)
    requires TrkInv(t0) && Seen(t0, one)
    ensures -1 <= one.frontier
  {
  }

  lemma WholeIsSafe(t0: Trk, one: Trk, t: Trk, addr: nat, len: nat, h: Lsn)
    requires TrkInv(t0) && TrkInv(t) && Seen(t0, one) && Seen(one, t) && Seen(t0, t) && len > 0 && -1 <= one.frontier
    requires if one.frontier >= one.highestAcked then h == one.frontier
      else h == one.highestAcked && LowestHit(one, addr, len, one.frontier + 1, one.highestAcked) == -1
    ensures SafePlan(t0, t, addr, len, [Piece(addr, len, h)])
  {
    hide Certified, SeesAcked, TrkInv, Seen;
    forall y: nat | addr <= y < addr + len ensures Certified(t, h, y) && SeesAcked(t0, t, h, y) {
      if one.frontier >= one.highestAcked {
        FrontierIsSafe(t0, one, t, y);
      } else {
        NoHitIsSafe(t0, one, t, addr, len, y);
      }
    }
  }
}
