/** How the per-block winner pass arrives at the largest safe horizon. */
module PlanSpec {
  import opened CraftTypes
  import Arith
  import opened Pieces
  import opened Tracker
  import opened ReadPlan

  /** Above this many blocks a read is fenced instead of split. */
  const MAX_BLOCKS := 4096

  /** A split into more segments than this is fenced instead. */
  const MAX_SEGMENTS := 8

  /**
   * An index in (F, Ha] that may stand in the way of [addr, addr + len): unresolved and
   * overlapping, or unpublished.
   */
  predicate Hits(t: Trk, addr: nat, len: nat, u: Lsn) {
    u !in t.done && (u in t.slots ==> Overlaps(addr, len, t.slots[u].addr, t.slots[u].len))
  }

  /** The lowest hit in [lo, hi], or -1. */
  function LowestHit(t: Trk, addr: nat, len: nat, lo: Lsn, hi: Lsn): (u: Lsn)
    requires 0 <= lo
    ensures u == -1 || (lo <= u <= hi && Hits(t, addr, len, u))
    ensures forall d :: lo <= d <= hi && (u == -1 || d < u) ==> !Hits(t, addr, len, d)
    decreases hi - lo + 1
  {
    if lo > hi then -1 else if Hits(t, addr, len, lo) then lo else LowestHit(t, addr, len, lo + 1, hi)
  }

  /** Counted, but its create() is not visible yet. */
  predicate GapAt(t: Trk, d: Lsn) {
    d !in t.slots && d !in t.done
  }

  ghost predicate Gap(t: Trk, lo: Lsn, hi: Lsn) {
    exists d :: lo <= d <= hi && GapAt(t, d)
  }

  predicate FailedAt(t: Trk, addr: nat, len: nat, d: Lsn) {
    d in t.slots && t.slots[d].outcome.Failed? && Overlaps(addr, len, t.slots[d].addr, t.slots[d].len)
  }

  /** A failed write overlaps the range. */
  ghost predicate FailedHit(t: Trk, addr: nat, len: nat, lo: Lsn, hi: Lsn) {
    exists d :: lo <= d <= hi && FailedAt(t, addr, len, d)
  }

  /**
   * What slot `k` does to the fence of byte `y`: an acked write lifts it, an unresolved one
   * raises it if it is down.
   */
  function Meet(t: Trk, k: Lsn, y: nat, u: Lsn): Lsn {
    if !OnByte(t, k, y) then u
    else if t.slots[k].outcome.Acked? then -1
    else if u < 0 then k else u
  }

  /** Walking the slots of byte `y` upwards: the lowest unresolved one above the last acked one, or -1. */
  function Fence(t: Trk, lo: Lsn, k: Lsn, y: nat): (u: Lsn)
    requires 0 <= lo
    ensures u == -1 || lo <= u <= k
    decreases k - lo + 1
  {
    if k < lo then -1 else Meet(t, k, y, Fence(t, lo, k - 1, y))
  }

  /** Either `k` is safe, or `u - 1` is and nothing from `u` to `k` is. */
  ghost predicate Fenced(t: Trk, k: Lsn, y: nat, u: Lsn) {
    if u < 0 then SafeAt(t, k, y) else SafeAt(t, u - 1, y) && forall h :: u <= h <= k ==> !SafeAt(t, h, y)
  }

  /** What the walk maintains. */
  lemma {:induction false} FenceSound(t: Trk, lo: Lsn, k: Lsn, y: nat)
    requires t.base < lo && 0 <= lo <= k + 1
    requires forall d :: t.base < d < lo && OnByte(t, d, y) ==> AckedAt(t, d)
    ensures Fenced(t, k, y, Fence(t, lo, k, y))
    decreases k - lo + 1
  {
    if k >= lo {
      FenceSound(t, lo, k - 1, y);
      FenceStep(t, k, y, Fence(t, lo, k - 1, y), Fence(t, lo, k, y));
    } else {
      var w := TopOn(t, k, y);
      assert w > t.base ==> OnByte(t, w, y);
    }
  }

  lemma FenceStep(t: Trk, k: Lsn, y: nat, u: Lsn, u': Lsn)
    requires t.base < k && 0 <= k && u < k && Fenced(t, k - 1, y, u)
    requires u' == Meet(t, k, y, u) && (u < 0 ==> u == -1)
    ensures Fenced(t, k, y, u')
  {
    assert TopOn(t, k, y) == if OnByte(t, k, y) then k else TopOn(t, k - 1, y);
    if u' >= 0 {
      forall h | u' <= h <= k ensures !SafeAt(t, h, y) {
        if h == k && !OnByte(t, k, y) { assert !SafeAt(t, k - 1, y); }
      }
    }
  }

  /** A fenced block ducks under its fence; the others take the full horizon. */
  function Under(u: Lsn, ha: Lsn): Lsn {
    if u < 0 then ha else u - 1
  }

  /** The horizon the walk gives byte `y` when the highest acked dLSN is `ha`. */
  function HorizonOf(t: Trk, umin: Lsn, ha: Lsn, y: nat): (h: Lsn)
    requires 0 <= umin
  {
    Under(Fence(t, umin, ha, y), ha)
  }

  /** The walk from the lowest hit finds the largest safe horizon of every byte of the range. */
  lemma WalkIsBest(t: Trk, addr: nat, len: nat, umin: Lsn, y: nat)
    requires TrkInv(t) && t.frontier < t.highestAcked && !Gap(t, t.frontier + 1, t.highestAcked)
    requires umin == LowestHit(t, addr, len, t.frontier + 1, t.highestAcked) && umin >= 0
    requires addr <= y < addr + len
    ensures BestHorizon(t, HorizonOf(t, umin, t.highestAcked, y), y)
  {
    AllPublished(t);
    forall d | t.base < d < umin && OnByte(t, d, y) ensures AckedAt(t, d) {
      if d <= t.frontier { assert d in t.done; } else { assert !Hits(t, addr, len, d); }
      assert ResolvedAt(t, d);
    }
    FenceSound(t, umin, t.highestAcked, y);
  }

  lemma AllPublished(t: Trk)
    requires TrkInv(t) && t.frontier < t.highestAcked && !Gap(t, t.frontier + 1, t.highestAcked)
    ensures forall d :: t.base < d <= Ceiling(t) ==> d in t.slots
  {
    forall d | t.base < d <= Ceiling(t) ensures d in t.slots {
      assert !GapAt(t, d) || d <= t.frontier;
      assert d in t.done ==> ResolvedAt(t, d);
    }
  }

  /** With nothing unresolved in the way the whole range is safe at the top. */
  lemma NoHitIsBest(t: Trk, addr: nat, len: nat, y: nat)
    requires TrkInv(t) && t.frontier < t.highestAcked
    requires LowestHit(t, addr, len, t.frontier + 1, t.highestAcked) == -1
    requires addr <= y < addr + len
    ensures BestHorizon(t, t.highestAcked, y)
  {
    var w := TopOn(t, t.highestAcked, y);
    forall d | t.frontier < d <= t.highestAcked ensures !GapAt(t, d) { assert !Hits(t, addr, len, d); }
    AllPublished(t);
    if w > t.base {
      if w <= t.frontier { assert w in t.done; } else { assert !Hits(t, addr, len, w); }
      assert ResolvedAt(t, w);
    }
  }

  /** Everything at or below F is resolved, so F itself is safe. */
  lemma FrontierIsBest(t: Trk, y: nat)
    requires TrkInv(t) && t.frontier >= t.highestAcked
    ensures BestHorizon(t, t.frontier, y)
  {
    forall d | t.base < d <= t.frontier ensures d in t.slots && ResolvedAt(t, d) { assert d in t.done; }
    var w := TopOn(t, t.frontier, y);
    assert w > t.base ==> OnByte(t, w, y) && ResolvedAt(t, w);
  }

  // ---------------------------------------------------------------- the plan

  /** Every slot is a whole number of blocks, as the client's precheck demands. */
  ghost predicate AlignedSlots(t: Trk, lba: nat)
    requires lba > 0
  {
    forall d :: d in t.slots ==> t.slots[d].addr % lba == 0 && t.slots[d].len % lba == 0 && t.slots[d].len > 0
  }

  function Horizons(t: Trk, umin: Lsn, addr: nat, lba: nat, n: nat): (hs: seq<Lsn>)
    requires 0 <= umin
    ensures |hs| == n && forall b :: 0 <= b < n ==> hs[b] == HorizonOf(t, umin, t.highestAcked, BlockAt(addr, lba, b))
  {
    seq(n, b requires 0 <= b < n => HorizonOf(t, umin, t.highestAcked, BlockAt(addr, lba, b)))
  }

  /** The split itself; no segments when the range is too ragged. */
  function SplitOf(t: Trk, umin: Lsn, addr: nat, lba: nat, n: nat): (segs: seq<Segment>)
    requires 0 <= umin && n > 0
  {
    var all := Coalesce(Horizons(t, umin, addr, lba, n), addr, lba);
    if |all| <= MAX_SEGMENTS then all else []
  }

  /** How [addr, addr + len) is read: one segment, a split, or nothing when it is fenced. */
  ghost function PlanOf(t: Trk, lba: nat, scanCap: int, addr: nat, len: nat): (segs: seq<Segment>)
    requires -1 <= t.frontier
  {
    var F, Ha := t.frontier, t.highestAcked;
    if F >= Ha then [Piece(addr, len, F)] else
    var umin := LowestHit(t, addr, len, F + 1, Ha);
    if umin < 0 then [Piece(addr, len, Ha)]
    else if Gap(t, F + 1, Ha) || Ha - umin > scanCap || lba == 0 then []
    else if len / lba == 0 || len / lba > MAX_BLOCKS then []
    else SplitOf(t, umin, addr, lba, len / lba)
  }

  /** Bytes of one block are covered by the same slots, so they share their horizon. */
  lemma SameBlock(t: Trk, lba: nat, h: Lsn, y: nat, y': nat)
    requires lba > 0 && AlignedSlots(t, lba) && y / lba == y' / lba && BestHorizon(t, h, y)
    ensures BestHorizon(t, h, y')
  {
    forall d ensures OnByte(t, d, y) == OnByte(t, d, y') {
      if d in t.slots {
        Arith.BlockOfByte(lba, t.slots[d].addr, t.slots[d].len, y);
        Arith.BlockOfByte(lba, t.slots[d].addr, t.slots[d].len, y');
      }
    }
    forall k ensures SafeAt(t, k, y) == SafeAt(t, k, y') { SameTop(t, k, y, y'); }
  }

  lemma {:induction false} SameTop(t: Trk, h: Lsn, y: nat, y': nat)
    requires forall d :: OnByte(t, d, y) == OnByte(t, d, y')
    ensures TopOn(t, h, y) == TopOn(t, h, y')
    decreases h - t.base
  {
    if h > t.base { SameTop(t, h - 1, y, y'); }
  }

  /** Every byte of a split gets its largest safe horizon. */
  lemma SplitIsBest(t: Trk, addr: nat, len: nat, lba: nat, umin: Lsn, k: nat, y: nat)
    requires TrkInv(t) && lba > 0 && AlignedSlots(t, lba) && addr % lba == 0 && len % lba == 0 && len / lba > 0
    requires t.frontier < t.highestAcked && !Gap(t, t.frontier + 1, t.highestAcked)
    requires umin == LowestHit(t, addr, len, t.frontier + 1, t.highestAcked) && umin >= 0
    requires var segs := Coalesce(Horizons(t, umin, addr, lba, len / lba), addr, lba);
      k < |segs| && segs[k].addr <= y < segs[k].addr + segs[k].len
    ensures BestHorizon(t, Coalesce(Horizons(t, umin, addr, lba, len / lba), addr, lba)[k].tag, y)
  {
    var n, hs := len / lba, Horizons(t, umin, addr, lba, len / lba);
    var segs := Coalesce(hs, addr, lba);
    CoalesceGroups(hs, addr, lba);
    assert n * lba == len by { var _ := Arith.Whole(lba, len); }
    PieceInside(segs, addr, len, k, y);
    var b := BlockOf(addr, lba, n, y);
    var z := BlockAt(addr, lba, b);
    assert PieceOk(hs, addr, lba, segs[k]);
    Arith.BlockOfByte(lba, segs[k].addr, segs[k].len, y);
    Arith.BlockOfByte(lba, segs[k].addr, segs[k].len, z);
    Arith.BlockOfByte(lba, addr, len, y);
    Arith.BlockOfByte(lba, addr, len, z);
    WalkIsBest(t, addr, len, umin, z);
    SameBlock(t, lba, segs[k].tag, z, y);
  }

  lemma WholeIsBest(t: Trk, addr: nat, len: nat)
    requires TrkInv(t) && len > 0
    requires t.frontier >= t.highestAcked || LowestHit(t, addr, len, t.frontier + 1, t.highestAcked) == -1
    ensures PlanOk(t, addr, len, [Piece(addr, len, Ceiling(t))])
  {
    forall y: nat | addr <= y < addr + len ensures BestHorizon(t, Ceiling(t), y) {
      if t.frontier >= t.highestAcked { FrontierIsBest(t, y); } else { NoHitIsBest(t, addr, len, y); }
    }
  }

  /** There is a plan for the range at all: at most eight segments, every byte at its largest safe horizon. */
  ghost predicate Plannable(t: Trk, addr: nat, len: nat) {
    exists segs :: PlanOk(t, addr, len, segs)
  }

  /** The split of the blocks, however many segments it takes, has every byte at its best. */
  lemma SplitTiles(t: Trk, addr: nat, len: nat, lba: nat, umin: Lsn)
    requires TrkInv(t) && lba > 0 && AlignedSlots(t, lba) && addr % lba == 0 && len % lba == 0 && len / lba > 0
    requires t.frontier < t.highestAcked && !Gap(t, t.frontier + 1, t.highestAcked)
    requires umin == LowestHit(t, addr, len, t.frontier + 1, t.highestAcked) && umin >= 0
    ensures var segs := Coalesce(Horizons(t, umin, addr, lba, len / lba), addr, lba);
      && Tiles(segs, addr, len) && (forall k :: 0 < k < |segs| ==> segs[k].tag != segs[k - 1].tag)
      && (forall k, y: nat :: 0 <= k < |segs| && segs[k].addr <= y < segs[k].addr + segs[k].len ==>
            BestHorizon(t, segs[k].tag, y))
  {
    hide BestHorizon, Coalesce, LowestHit, Gap, TrkInv, AlignedSlots, PieceOk;
    var segs := Coalesce(Horizons(t, umin, addr, lba, len / lba), addr, lba);
    forall k, y: nat | 0 <= k < |segs| && segs[k].addr <= y < segs[k].addr + segs[k].len
      ensures BestHorizon(t, segs[k].tag, y)
    {
      SplitIsBest(t, addr, len, lba, umin, k, y);
    }
    CoalesceGroups(Horizons(t, umin, addr, lba, len / lba), addr, lba);
    assert len / lba * lba == len by { var _ := Arith.Whole(lba, len); }
  }

  /** The horizon of a byte is unique, so any plan cuts the range wherever the split does. */
  lemma SplitIsFewest(t: Trk, addr: nat, len: nat, all: seq<Segment>, segs: seq<Segment>)
    requires Tiles(all, addr, len) && (forall k :: 0 < k < |all| ==> all[k].tag != all[k - 1].tag)
    requires forall k, y: nat :: 0 <= k < |all| && all[k].addr <= y < all[k].addr + all[k].len ==>
      BestHorizon(t, all[k].tag, y)
    requires PlanOk(t, addr, len, segs)
    ensures |all| <= |segs|
  {
    hide Tiles, BestHorizon;
    forall k, j, y | 0 <= k < |all| && 0 <= j < |segs| && InPiece(all[k], y) && InPiece(segs[j], y)
      ensures all[k].tag == segs[j].tag
    {
      BestHorizonUnique(t, all[k].tag, segs[j].tag, y);
    }
    FewestPieces(all, segs, addr, len);
  }

  /** The split gives a plan exactly when there is one. */
  lemma SplitExact(t: Trk, addr: nat, len: nat, lba: nat, umin: Lsn)
    requires TrkInv(t) && lba > 0 && AlignedSlots(t, lba) && addr % lba == 0 && len % lba == 0 && len / lba > 0
    requires t.frontier < t.highestAcked && !Gap(t, t.frontier + 1, t.highestAcked)
    requires umin == LowestHit(t, addr, len, t.frontier + 1, t.highestAcked) && umin >= 0
    ensures var segs := SplitOf(t, umin, addr, lba, len / lba);
      if Plannable(t, addr, len) then segs != [] && PlanOk(t, addr, len, segs) else segs == []
  {
    hide BestHorizon, Coalesce, LowestHit, Gap, TrkInv, AlignedSlots, Tiles, Horizons;
    var all := Coalesce(Horizons(t, umin, addr, lba, len / lba), addr, lba);
    SplitTiles(t, addr, len, lba, umin);
    if Plannable(t, addr, len) {
      var segs :| PlanOk(t, addr, len, segs);
      SplitIsFewest(t, addr, len, all, segs);
    } else {
      assert !PlanOk(t, addr, len, all);
    }
  }

  /** What the block-by-block split achieves, given that nothing is unpublished: a plan whenever one exists. */
  ghost predicate SplitOk(t: Trk, lba: nat, addr: nat, len: nat, segs: seq<Segment>) {
    if 0 < lba && len / lba <= 4096 && Plannable(t, addr, len) then PlanOk(t, addr, len, segs) else segs == []
  }

  /** The scan for hits has found `umin` and nothing unpublished. */
  ghost predicate ScanDone(t: Trk, addr: nat, len: nat, umin: Lsn) {
    && TrkInv(t) && t.frontier < t.highestAcked && !Gap(t, t.frontier + 1, t.highestAcked)
    && umin == LowestHit(t, addr, len, t.frontier + 1, t.highestAcked) && umin >= 0
  }

  lemma SplitMeets(t: Trk, lba: nat, addr: nat, len: nat, umin: Lsn)
    requires ScanDone(t, addr, len, umin) && len > 0
    requires lba > 0 ==> AlignedSlots(t, lba) && addr % lba == 0 && len % lba == 0
    ensures SplitOk(t, lba, addr, len,
                    if lba == 0 || len / lba == 0 || len / lba > MAX_BLOCKS then []
                    else SplitOf(t, umin, addr, lba, len / lba))
  {
    hide SplitOf, PlanOk, Plannable, Gap, LowestHit, TrkInv, AlignedSlots;
    if lba > 0 {
      var _ := Arith.Whole(lba, len);
      SplitExact(t, addr, len, lba, umin);
    }
  }

  /** Between the frontier and the highest acked dLSN, and not published, or unresolved on the range. */
  predicate InTheWay(t: Trk, addr: nat, len: nat, d: Lsn) {
    && t.frontier < d <= t.highestAcked
    && (d in t.slots ==>
          && (t.slots[d].outcome.InFlight? || t.slots[d].outcome.Failed?)
          && t.slots[d].addr < addr + len && addr < t.slots[d].addr + t.slots[d].len)
  }

  /**
   * When a read is fenced: something is in the way, and a dLSN is unpublished, or something
   * in the way is too far below the top, or the range has no or too many blocks, or no
   * eight segments will do.
   */
  ghost predicate Unreadable(t: Trk, lba: nat, scanCap: int, addr: nat, len: nat) {
    && (exists d :: InTheWay(t, addr, len, d))
    && (|| (exists d :: InTheWay(t, addr, len, d) && d !in t.slots)
        || (exists d :: InTheWay(t, addr, len, d) && d < t.highestAcked - scanCap)
        || lba == 0 || len / lba > 4096 || !Plannable(t, addr, len))
  }

  lemma FailureInTheWay(t: Trk, addr: nat, len: nat)
    ensures FailedHit(t, addr, len, t.frontier + 1, t.highestAcked) <==>
      exists d :: InTheWay(t, addr, len, d) && d in t.slots && t.slots[d].outcome.Failed?
  {
    forall d ensures t.frontier < d <= t.highestAcked && FailedAt(t, addr, len, d) <==>
      InTheWay(t, addr, len, d) && d in t.slots && t.slots[d].outcome.Failed? { }
  }

  lemma FrontierLow(t: Trk)
    requires TrkInv(t)
    ensures -1 <= t.frontier
  {
  }

  /** What the scan calls a hit is what is in the way. */
  lemma HitIsInTheWay(t: Trk, addr: nat, len: nat, d: Lsn)
    requires TrkInv(t)
    ensures InTheWay(t, addr, len, d) <==> t.frontier < d <= t.highestAcked && Hits(t, addr, len, d)
    ensures InTheWay(t, addr, len, d) && d !in t.slots <==> t.frontier < d <= t.highestAcked && GapAt(t, d)
  {
    assert d in t.done <==> ResolvedAt(t, d);
  }

  /**
   * A plan that is not fenced tiles the range with at most eight segments, each byte at its
   * largest safe horizon; and a read is fenced only when it has to be.
   */
  lemma PlanIsBest(t: Trk, lba: nat, scanCap: int, addr: nat, len: nat)
    requires TrkInv(t) && len > 0
    requires lba > 0 ==> AlignedSlots(t, lba) && addr % lba == 0 && len % lba == 0
    ensures PlanOf(t, lba, scanCap, addr, len) != [] ==> PlanOk(t, addr, len, PlanOf(t, lba, scanCap, addr, len))
    ensures PlanOf(t, lba, scanCap, addr, len) == [] <==> Unreadable(t, lba, scanCap, addr, len)
  {
    hide PlanOk, SplitOf, Hits, GapAt, InTheWay, AlignedSlots, TrkInv;
    var F, Ha := t.frontier, t.highestAcked;
    FrontierLow(t);
    forall d ensures InTheWay(t, addr, len, d) <==> F < d <= Ha && Hits(t, addr, len, d) {
      HitIsInTheWay(t, addr, len, d);
    }
    forall d ensures InTheWay(t, addr, len, d) && d !in t.slots <==> F < d <= Ha && GapAt(t, d) {
      HitIsInTheWay(t, addr, len, d);
    }
    if F >= Ha || LowestHit(t, addr, len, F + 1, Ha) == -1 {
      WholeIsBest(t, addr, len);
    } else {
      var umin := LowestHit(t, addr, len, F + 1, Ha);
      assert InTheWay(t, addr, len, umin);
      if lba > 0 { var _ := Arith.Whole(lba, len); }
      if !Gap(t, F + 1, Ha) && lba > 0 { SplitExact(t, addr, len, lba, umin); }
    }
  }
}
