/** What a read plan has to be: per byte, the largest horizon at which nothing unresolved is on top. */
module ReadPlan {
  import opened CraftTypes
  import opened Pieces
  import opened Tracker

  /** One sub-range of a read; the tag is the horizon it carries. */
  type Segment = Piece<Lsn>

  predicate CoversByteOf(e: Entry, y: nat) {
    e.addr <= y < e.addr + e.len
  }

  /** A visible slot that may have put something on byte `y`. */
  predicate OnByte(t: Trk, d: Lsn, y: nat) {
    d in t.slots && !t.slots[d].outcome.Void? && CoversByteOf(t.slots[d], y)
  }

  /** The top non-Empty slot in (base, h] covering `y`, or `base`. */
  function TopOn(t: Trk, h: Lsn, y: nat): (w: Lsn)
    ensures t.base <= w
    ensures w > t.base ==> w <= h && OnByte(t, w, y)
    ensures forall d :: w < d <= h ==> !OnByte(t, d, y)
    decreases h - t.base
  {
    if h <= t.base then t.base else if OnByte(t, h, y) then h else TopOn(t, h - 1, y)
  }

  /** A replica serving at `h` shows a resolved write on `y`. */
  predicate SafeAt(t: Trk, h: Lsn, y: nat) {
    TopOn(t, h, y) == t.base || AckedAt(t, TopOn(t, h, y))
  }

  function Ceiling(t: Trk): Lsn {
    Max(t.frontier, t.highestAcked)
  }

  /** The greatest safe horizon for byte `y`, with every dLSN up to it visible. */
  ghost predicate BestHorizon(t: Trk, h: Lsn, y: nat) {
    && t.frontier <= h <= Ceiling(t)
    && SafeAt(t, h, y)
    && (forall h' :: h < h' <= Ceiling(t) ==> !SafeAt(t, h', y))
    && (forall d :: t.base < d <= Ceiling(t) ==> d in t.slots)
  }

  ghost predicate PlanOk(t: Trk, addr: nat, len: nat, segs: seq<Segment>) {
    && Tiles(segs, addr, len) && |segs| <= 8
    && (forall k, y: nat :: 0 <= k < |segs| && segs[k].addr <= y < segs[k].addr + segs[k].len ==>
          BestHorizon(t, segs[k].tag, y))
  }

  /** The highest acked dLSN in (base, h] covering `y`, or `base`. */
  function LastAcked(t: Trk, h: Lsn, y: nat): (w: Lsn)
    ensures t.base <= w
    ensures w > t.base ==> w <= h && AckedAt(t, w) && CoversByteOf(t.slots[w], y)
    ensures forall d :: w < d <= h ==> !(AckedAt(t, d) && CoversByteOf(t.slots[d], y))
    decreases h - t.base
  {
    if h <= t.base then t.base
    else if AckedAt(t, h) && CoversByteOf(t.slots[h], y) then h
    else LastAcked(t, h - 1, y)
  }

  /** The best horizon is not below any acked write on the byte, and is unique. */
  lemma BestHorizonSeesAcked(t: Trk, h: Lsn, y: nat, d: Lsn)
    requires TrkInv(t) && BestHorizon(t, h, y)
    requires AckedAt(t, d) && CoversByteOf(t.slots[d], y)
    ensures d <= h
  {
    assert TopOn(t, d, y) == d;
    assert SafeAt(t, d, y);
  }

  /** What is on top at the best horizon is the highest acked write of all. */
  lemma BestHorizonShowsLastAcked(t: Trk, h: Lsn, y: nat)
    requires TrkInv(t) && BestHorizon(t, h, y)
    ensures TopOn(t, h, y) == LastAcked(t, t.highestAcked, y)
  {
    var w, a := TopOn(t, h, y), LastAcked(t, t.highestAcked, y);
    if a > t.base {
      BestHorizonSeesAcked(t, h, y, a);
      assert OnByte(t, a, y);
    }
  }

  lemma BestHorizonUnique(t: Trk, h: Lsn, h': Lsn, y: nat)
    requires BestHorizon(t, h, y) && BestHorizon(t, h', y)
    ensures h == h'
  {
  }
}
