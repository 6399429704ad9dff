/** The client's dLSN tracker as the object it is, each method against its specification. */
module DlsnTracking {
  import opened CraftTypes
  import Arith
  import T = Tracker
  import opened Pieces
  import opened ReadPlan
  import opened PlanSpec
  import opened PlanAcross

  const SCAN_CAP_FLOOR := 1024
  const SCAN_CAP_PER_INFLIGHT := 8

  // ---------------------------------------------------------------- hopping from gap to gap

  /** The dLSNs in [lo, hi] whose completion bit is not set, ascending. */
  function Open(done: set<Lsn>, lo: Lsn, hi: Lsn): (s: seq<Lsn>)
    decreases hi - lo + 1
  {
    if lo > hi then [] else if lo in done then Open(done, lo + 1, hi) else [lo] + Open(done, lo + 1, hi)
  }

  ghost predicate Rising(s: seq<Lsn>) {
    forall i, j :: 0 <= i < j < |s| ==> s[i] < s[j]
  }

  lemma RisingFrom(lo: Lsn, s: seq<Lsn>)
    requires Rising(s) && forall d :: d in s ==> lo < d
    ensures Rising([lo] + s) && forall d :: d in [lo] + s <==> d == lo || d in s
  {
    var t := [lo] + s;
    forall i, j | 0 <= i < j < |t| ensures t[i] < t[j] { assert t[j] == s[j - 1] && s[j - 1] in s; }
  }

  /** Exactly the unresolved dLSNs of the range, in ascending order. */
  lemma {:induction false} OpenExact(done: set<Lsn>, lo: Lsn, hi: Lsn)
    ensures forall d :: d in Open(done, lo, hi) <==> lo <= d <= hi && d !in done
    ensures Rising(Open(done, lo, hi))
    decreases hi - lo + 1
  {
    if lo <= hi {
      hide Rising;
      OpenExact(done, lo + 1, hi);
      if lo !in done { RisingFrom(lo, Open(done, lo + 1, hi)); }
    }
  }

  /** completed_upto lands just below the next unresolved dLSN. */
  lemma {:induction false} Hop(done: set<Lsn>, h: Lsn, hi: Lsn)
    ensures var u := T.CompletedUpTo(done, h) + 1;
      Open(done, h, hi) == if u > hi then [] else [u] + Open(done, u + 1, hi)
    decreases hi - h + 1
  {
    if h <= hi && h in done {
      Hop(done, h + 1, hi);
      HopSame(done, h);
    }
  }

  lemma HopSame(done: set<Lsn>, h: Lsn)
    requires h in done
    ensures T.CompletedUpTo(done, h) == T.CompletedUpTo(done, h + 1)
  {
    var a, b := T.CompletedUpTo(done, h), T.CompletedUpTo(done, h + 1);
    assert a < b ==> a + 1 in done;
    assert b < a ==> b + 1 in done;
  }

  function Take(s: seq<Lsn>, limit: nat): seq<Lsn> {
    s[..Min(limit, |s|)]
  }

  lemma TakeNone(limit: nat)
    ensures Take([], limit) == []
  {
  }

  lemma TakeOneMore(s: seq<Lsn>, u: Lsn, limit: nat)
    ensures Take(s + [u], limit) == if |Take(s, limit)| < limit then Take(s, limit) + [u] else Take(s, limit)
  {
  }

  // ---------------------------------------------------------------- what a range meets

  lemma NoHitYet(t: T.Trk, addr: nat, len: nat, lo: Lsn)
    requires 0 <= lo
    ensures LowestHit(t, addr, len, lo, lo - 1) == -1 && !FailedHit(t, addr, len, lo, lo - 1) && !Gap(t, lo, lo - 1)
  {
  }

  /** Resolved dLSNs are no hits, so a hop over them changes nothing. */
  lemma HitSkip(t: T.Trk, addr: nat, len: nat, lo: Lsn, h: Lsn, k: Lsn)
    requires T.TrkInv(t) && 0 <= lo <= h <= k + 1 && forall d :: h <= d <= k ==> d in t.done
    ensures LowestHit(t, addr, len, lo, k) == LowestHit(t, addr, len, lo, h - 1)
    ensures FailedHit(t, addr, len, lo, k) <==> FailedHit(t, addr, len, lo, h - 1)
    ensures Gap(t, lo, k) <==> Gap(t, lo, h - 1)
  {
    forall d | h <= d <= k ensures !FailedAt(t, addr, len, d) && !GapAt(t, d) { assert T.ResolvedAt(t, d); }
    var m, n := LowestHit(t, addr, len, lo, h - 1), LowestHit(t, addr, len, lo, k);
    assert m >= 0 ==> Hits(t, addr, len, m);
    assert n >= 0 ==> Hits(t, addr, len, n);
  }

  lemma HitAt(t: T.Trk, addr: nat, len: nat, lo: Lsn, u: Lsn)
    requires 0 <= lo <= u && u !in t.done
    ensures LowestHit(t, addr, len, lo, u) ==
      var m := LowestHit(t, addr, len, lo, u - 1); if m < 0 && Hits(t, addr, len, u) then u else m
    ensures FailedHit(t, addr, len, lo, u) <==> FailedHit(t, addr, len, lo, u - 1) || FailedAt(t, addr, len, u)
    ensures Gap(t, lo, u) <==> Gap(t, lo, u - 1) || u !in t.slots
  {
    assert GapAt(t, u) == (u !in t.slots);
    var m, n := LowestHit(t, addr, len, lo, u - 1), LowestHit(t, addr, len, lo, u);
    assert m >= 0 ==> Hits(t, addr, len, m);
    assert n >= 0 ==> Hits(t, addr, len, n);
  }

  lemma WholeBlocks(len: nat, lba: nat)
    requires lba > 0 && len % lba == 0 && len > 0
    ensures len / lba > 0
  {
    var n := Arith.Whole(lba, len);
  }

  lemma BlockInRange(addr: nat, len: nat, lba: nat, b: nat)
    requires lba > 0 && len % lba == 0 && b < len / lba
    ensures addr <= BlockAt(addr, lba, b) < addr + len
  {
    var n := Arith.Whole(lba, len);
    Arith.MulLess(lba, b, n);
  }

  lemma NoSharedBlocks(t: T.Trk, idx: Lsn, addr: nat, len: nat, lba: nat)
    requires lba > 0 && len % lba == 0 && idx in t.slots && !Overlaps(addr, len, t.slots[idx].addr, t.slots[idx].len)
    ensures forall b :: 0 <= b < len / lba ==> !OnByte(t, idx, BlockAt(addr, lba, b))
  {
    forall b | 0 <= b < len / lba ensures !OnByte(t, idx, BlockAt(addr, lba, b)) { BlockInRange(addr, len, lba, b); }
  }

  /** The blocks a slot covers run from FirstShared to LastShared. */
  lemma SharedBlocks(t: T.Trk, idx: Lsn, addr: nat, len: nat, lba: nat)
    requires lba > 0 && AlignedSlots(t, lba) && addr % lba == 0 && len % lba == 0 && len > 0
    requires idx in t.slots && !t.slots[idx].outcome.Void? && Overlaps(addr, len, t.slots[idx].addr, t.slots[idx].len)
    ensures var e := t.slots[idx];
      var b0, b1 := Arith.FirstShared(lba, addr, e.addr), Arith.LastShared(lba, addr, addr + len, e.addr + e.len);
      && 0 <= b0 <= b1 < len / lba
      && forall b :: 0 <= b < len / lba ==> (b0 <= b <= b1 <==> OnByte(t, idx, BlockAt(addr, lba, b)))
  {
    hide Arith.FirstShared, Arith.LastShared;
    var e := t.slots[idx];
    WholeBlocks(len, lba);
    Arith.TouchedBlocks(lba, addr, len, e.addr, e.len, 0);
    forall b | 0 <= b < len / lba
      ensures Arith.FirstShared(lba, addr, e.addr) <= b <= Arith.LastShared(lba, addr, addr + len, e.addr + e.len)
        <==> OnByte(t, idx, BlockAt(addr, lba, b))
    {
      Arith.TouchedBlocks(lba, addr, len, e.addr, e.len, b);
    }
  }

  lemma NothingMet(t: T.Trk, idx: Lsn, addr: nat, lba: nat, umin: Lsn)
    requires idx !in t.slots && 0 <= umin <= idx
    ensures forall b: nat ::
      Fence(t, umin, idx, BlockAt(addr, lba, b)) == Fence(t, umin, idx - 1, BlockAt(addr, lba, b))
  {
  }

  /** Blocks [start, b) at one horizon. */
  function RunOf(addr: nat, lba: nat, start: nat, b: nat, h: Lsn): Segment
    requires start <= b
  {
    Piece(BlockAt(addr, lba, start), (b - start) * lba, h)
  }

  lemma FirstBlock(hs: seq<Lsn>, addr: nat, lba: nat)
    requires |hs| > 0
    ensures Coalesce(hs[..1], addr, lba) == [] + [RunOf(addr, lba, 0, 1, hs[0])]
  {
  }

  lemma RunGrows(addr: nat, lba: nat, start: nat, b: nat, h: Lsn)
    requires start <= b
    ensures RunOf(addr, lba, start, b + 1, h) ==
      RunOf(addr, lba, start, b, h).(len := RunOf(addr, lba, start, b, h).len + lba)
    ensures RunOf(addr, lba, start, b, h).tag == h
    ensures RunOf(addr, lba, b, b + 1, h) == Piece(BlockAt(addr, lba, b), lba, h)
  {
    assert (b - start) * lba + lba == (b + 1 - start) * lba;
  }

  /** Block `b` extends the running segment or starts the next one. */
  lemma NextBlock(hs: seq<Lsn>, addr: nat, lba: nat, segs: seq<Segment>, start: nat, b: nat, cur: Lsn)
    requires 0 <= start < b < |hs|
    requires Coalesce(hs[..b], addr, lba) == segs + [RunOf(addr, lba, start, b, cur)]
    ensures Coalesce(hs[..b + 1], addr, lba) ==
      if hs[b] == cur then segs + [RunOf(addr, lba, start, b + 1, cur)]
      else segs + [RunOf(addr, lba, start, b, cur)] + [RunOf(addr, lba, b, b + 1, hs[b])]
  {
    hide RunOf, BlockAt;
    assert hs[..b + 1][..b] == hs[..b];
    RunGrows(addr, lba, start, b, cur);
    RunGrows(addr, lba, b, b, hs[b]);
  }

  function Lowered(ustar: seq<Lsn>, ha: Lsn): (hs: seq<Lsn>)
    ensures |hs| == |ustar| && forall b :: 0 <= b < |hs| ==> hs[b] == Under(ustar[b], ha)
  {
    seq(|ustar|, b requires 0 <= b < |ustar| => Under(ustar[b], ha))
  }

  /** Group the blocks by horizon, giving up beyond MAX_SEGMENTS. */
  method GroupBlocks(ustar: array<Lsn>, ha: Lsn, addr: nat, lba: nat) returns (segs: seq<Segment>)
    requires ustar.Length > 0
    ensures var all := Coalesce(Lowered(ustar[..], ha), addr, lba); segs == if |all| <= MAX_SEGMENTS then all else []
  {
    hide Coalesce, RunOf, BlockAt, Under;
    ghost var hs := Lowered(ustar[..], ha);
    segs := [];
    var n, start, cur, b := ustar.Length, 0, Under(ustar[0], ha), 1;
    FirstBlock(hs, addr, lba);
    while b <= n
      invariant 1 <= b <= n + 1 && 0 <= start < b && |segs| <= MAX_SEGMENTS
      invariant b <= n ==> Coalesce(hs[..b], addr, lba) == segs + [RunOf(addr, lba, start, b, cur)]
      invariant b > n ==> segs == Coalesce(hs, addr, lba)
    {
      if b < n {
        NextBlock(hs, addr, lba, segs, start, b, cur);
        if Under(ustar[b], ha) == cur {
          b := b + 1;
          continue;
        }
      }
      if |segs| == MAX_SEGMENTS {
        CoalesceGrows(hs, addr, lba, b);
        return [];
      }
      assert b == n ==> hs[..b] == hs;
      segs := segs + [RunOf(addr, lba, start, b, cur)];
      start := b;
      if b < n { cur := Under(ustar[b], ha); }
      b := b + 1;
    }
  }

  // ---------------------------------------------------------------- the tracker

  class DlsnTracker {
    var lbaSize: nat
    const scanCap: int
    var base: Lsn
    var next: Lsn
    var frontier: Lsn
    var highestAcked: Lsn
    var want: Lsn
    var slots: map<Lsn, T.Entry>
    var done: set<Lsn>
    var winnerScans: nat

    ghost function View(): T.Trk
      reads this
    {
      T.Trk(base, next, frontier, highestAcked, want, slots, done)
    }

    ghost predicate Valid()
      reads this
    {
      T.TrkInv(View())
    }

    constructor (maxInflight: nat)
      ensures Valid() && View() == T.ResetAt(-1) && next == 0 && frontier == highestAcked == want == -1
      ensures scanCap == Max(1024, 8 * maxInflight)
    {
      lbaSize, scanCap := 0, Max(SCAN_CAP_FLOOR, SCAN_CAP_PER_INFLIGHT * maxInflight);
      base, next, frontier, highestAcked, want := -1, 0, -1, -1, -1;
      slots, done, winnerScans := map[], {}, 0;
    }

    method ResetAt(login: Lsn, lba: nat)
      requires -1 <= login
      modifies this
      ensures Valid() && View() == T.ResetAt(login) && lbaSize == lba
      ensures base == frontier == highestAcked == login && next == login + 1 && want == -1 && slots == map[]
    {
      lbaSize := lba;
      next, frontier, highestAcked, want := login + 1, login, login, -1;
      base, slots, done := login, map[], {};
    }

    method Reserve(addr: nat, len: nat) returns (d: Lsn)
      requires Valid()
      modifies this
      ensures Valid() && d == old(next) && View() == T.Create(T.Bump(old(View())), d, addr, len)
      ensures next == d + 1 && slots == old(slots)[d := T.Entry(addr, len, T.InFlight)]
      ensures frontier == old(frontier) && highestAcked == old(highestAcked) && lbaSize == old(lbaSize)
    {
      d := next;
      next := next + 1;
      assert T.TrkInv(View()) by { T.BumpExact(old(View())); assert View() == T.Bump(old(View())); }
      T.CreateExact(View(), d, addr, len);
      slots := slots[d := T.Entry(addr, len, T.InFlight)];
    }

    method AdvanceFrontier()
      modifies this
      ensures View() == T.AdvanceFrontier(old(View())) && lbaSize == old(lbaSize)
    {
      var nf := Min(T.CompletedUpTo(done, frontier + 1), next - 1);
      if nf <= frontier { return; }
      frontier := nf;
    }

    method Resolve(d: Lsn, oc: T.Outcome)
      requires Valid() && d in slots
      modifies this
      ensures Valid() && View() == T.Resolve(old(View()), d, oc) && lbaSize == old(lbaSize)
      ensures slots == if old(slots)[d].outcome in {T.Acked, T.Void} then old(slots)
                       else old(slots)[d := old(slots)[d].(outcome := oc)]
      ensures base == old(base) && next == old(next) && want == old(want)
    {
      T.ResolveExact(View(), d, oc);
      if T.IsResolved(slots[d].outcome) { return; }
      slots := slots[d := slots[d].(outcome := oc)];
      if T.IsResolved(oc) { done := done + {d}; }
      if oc.Acked? && d > highestAcked { highestAcked := d; }
      if T.IsResolved(oc) { AdvanceFrontier(); }
    }

    /** The watermarks and the unresolved slots between them, listing at most `limit` of them. */
    method Stats(limit: nat) returns (count: nat, sample: seq<Lsn>)
      requires Valid()
      ensures var open := Open(done, frontier + 1, next - 1);
        count == |open| && sample == Take(open, limit)
    {
      hide Open, Take, T.CompletedUpTo, T.TrkInv;
      count, sample := 0, [];
      var h, issued := frontier + 1, next - 1;
      ghost var seen: seq<Lsn> := [];
      TakeNone(limit);
      while h <= issued
        invariant frontier + 1 <= h && issued == next - 1
        invariant seen + Open(done, h, issued) == Open(done, frontier + 1, issued)
        invariant count == |seen| && sample == Take(seen, limit)
        decreases issued - h + 1
      {
        var u := Min(T.CompletedUpTo(done, h), issued) + 1;
        Hop(done, h, issued);
        if u > issued { break; }
        TakeOneMore(seen, u, limit);
        count := count + 1;
        if |sample| < limit { sample := sample + [u]; }
        seen := seen + [u];
        h := u + 1;
      }
      Hop(done, h, issued);
      assert seen == Open(done, frontier + 1, issued);
    }

    // ------------------------------------------------------------ the resolution want

    method NoteWant(upto: Lsn)
      modifies this`want
      ensures want == Max(old(want), upto) && (old(Valid()) ==> Valid())
    {
      ghost var valid := Valid();
      if valid { T.WantExact(View(), Max(want, upto)); }
      if upto > want { want := upto; }
    }

    method Want() returns (w: Option<Lsn>)
      ensures w == if want < 0 then None else Some(want)
    {
      w := if want < 0 then None else Some(want);
    }

    /** Only what the round covered is consumed. */
    method ClearWant(upto: Lsn)
      modifies this`want
      ensures want == (if 0 <= old(want) <= upto then -1 else old(want)) && (old(Valid()) ==> Valid())
    {
      ghost var valid := Valid();
      if valid { T.WantExact(View(), -1); }
      if 0 <= want <= upto { want := -1; }
    }

    // ------------------------------------------------------------ planning a read

    /** The hits of a range in (F, Ha]: the lowest one, and whether one has failed or is not visible yet. */
    method FindHits(addr: nat, len: nat) returns (umin: Lsn, anyFailed: bool, anyGap: bool)
      requires Valid() && frontier < highestAcked
      ensures umin == LowestHit(View(), addr, len, frontier + 1, highestAcked)
      ensures anyFailed <==> FailedHit(View(), addr, len, frontier + 1, highestAcked)
      ensures anyGap <==> Gap(View(), frontier + 1, highestAcked)
    {
      hide LowestHit, FailedHit, Gap, T.CompletedUpTo, T.TrkInv;
      umin, anyFailed, anyGap := -1, false, false;
      FrontierLow(View());
      var h := frontier + 1;
      NoHitYet(View(), addr, len, h);
      while h <= highestAcked
        invariant frontier + 1 <= h <= highestAcked + 1
        invariant umin == LowestHit(View(), addr, len, frontier + 1, h - 1)
        invariant anyFailed <==> FailedHit(View(), addr, len, frontier + 1, h - 1)
        invariant anyGap <==> Gap(View(), frontier + 1, h - 1)
        decreases highestAcked - h + 1
      {
        var u := T.CompletedUpTo(done, h) + 1;
        HitSkip(View(), addr, len, frontier + 1, h, Min(u - 1, highestAcked));
        if u > highestAcked { return; }
        HitAt(View(), addr, len, frontier + 1, u);
        var active := u in slots;
        var hits := !active || Overlaps(addr, len, slots[u].addr, slots[u].len);
        if hits {
          if umin < 0 { umin := u; }
          if !active { anyGap := true; }
          if active && slots[u].outcome.Failed? { anyFailed := true; }
        }
        h := u + 1;
      }
    }

    /** One slot of the winner pass, over the blocks it shares with the range. */
    method MarkBlocks(ustar: array<Lsn>, idx: Lsn, addr: nat, len: nat)
      requires lbaSize > 0 && AlignedSlots(View(), lbaSize) && addr % lbaSize == 0 && len % lbaSize == 0 && len > 0
      requires idx in slots && ustar.Length == len / lbaSize
      modifies ustar
      ensures forall b :: 0 <= b < ustar.Length ==>
        ustar[b] == Meet(View(), idx, BlockAt(addr, lbaSize, b), old(ustar[b]))
    {
      hide BlockAt, Arith.FirstShared, Arith.LastShared, AlignedSlots;
      var e := slots[idx];
      if e.outcome.Void? { return; }
      if !Overlaps(addr, len, e.addr, e.len) {
        NoSharedBlocks(View(), idx, addr, len, lbaSize);
        return;
      }
      SharedBlocks(View(), idx, addr, len, lbaSize);
      var b0 := Arith.FirstShared(lbaSize, addr, e.addr);
      var b1 := Min(ustar.Length - 1, Arith.LastShared(lbaSize, addr, addr + len, e.addr + e.len));
      var b := b0;
      while b <= b1
        invariant b0 <= b <= b1 + 1
        invariant forall j :: 0 <= j < ustar.Length ==>
          ustar[j] == if b0 <= j < b then Meet(View(), idx, BlockAt(addr, lbaSize, j), old(ustar[j])) else old(ustar[j])
      {
        if e.outcome.Acked? {
          ustar[b] := -1;
        } else if ustar[b] < 0 {
          ustar[b] := idx;
        }
        b := b + 1;
      }
    }

    /** The winner pass over [umin, Ha]: what survives per block is its fence. */
    method WinnerPass(addr: nat, len: nat, umin: Lsn) returns (ustar: array<Lsn>)
      requires lbaSize > 0 && AlignedSlots(View(), lbaSize) && addr % lbaSize == 0 && len % lbaSize == 0 && len > 0
      requires 0 <= umin <= highestAcked
      ensures fresh(ustar) && ustar.Length == len / lbaSize
      ensures forall b :: 0 <= b < ustar.Length ==>
        ustar[b] == Fence(View(), umin, highestAcked, BlockAt(addr, lbaSize, b))
    {
      hide BlockAt, Meet, AlignedSlots;
      ustar := new Lsn[len / lbaSize](_ => -1);
      var idx := umin;
      while idx <= highestAcked
        invariant umin <= idx <= highestAcked + 1
        invariant forall b :: 0 <= b < ustar.Length ==>
          ustar[b] == Fence(View(), umin, idx - 1, BlockAt(addr, lbaSize, b))
      {
        if idx in slots {
          MarkBlocks(ustar, idx, addr, len);
        } else {
          NothingMet(View(), idx, addr, lbaSize, umin);
        }
        idx := idx + 1;
      }
    }

    /** The range block by block; no segments when it has too many blocks or needs too many segments. */
    method Split(addr: nat, len: nat, umin: Lsn) returns (segs: seq<Segment>)
      requires lbaSize > 0 ==> AlignedSlots(View(), lbaSize) && addr % lbaSize == 0 && len % lbaSize == 0
      requires 0 <= umin <= highestAcked && len > 0
      modifies this`winnerScans
      ensures segs == if lbaSize == 0 || len / lbaSize == 0 || len / lbaSize > MAX_BLOCKS then []
                      else SplitOf(View(), umin, addr, lbaSize, len / lbaSize)
      ensures ScanDone(View(), addr, len, umin) ==> SplitOk(View(), lbaSize, addr, len, segs)
    {
      hide BlockAt, Fence, AlignedSlots, Coalesce, ScanDone, SplitOk;
      if ScanDone(View(), addr, len, umin) { SplitMeets(View(), lbaSize, addr, len, umin); }
      winnerScans := winnerScans + 1;
      var nblk := if lbaSize != 0 then len / lbaSize else 0;
      if nblk == 0 || nblk > MAX_BLOCKS { return []; }
      var ustar := WinnerPass(addr, len, umin);
      assert Lowered(ustar[..], highestAcked) == Horizons(View(), umin, addr, lbaSize, nblk);
      segs := GroupBlocks(ustar, highestAcked, addr, lbaSize);
    }

    /**
     * compute(): how to read [addr, addr + len). No segments means the range is fenced; then
     * `failed` says that a failed write overlaps it, so that nothing but a round lifts the fence.
     */
    method Compute(addr: nat, len: nat) returns (segs: seq<Segment>, failed: bool)
      requires Valid() && len > 0
      requires lbaSize > 0 ==> AlignedSlots(View(), lbaSize) && addr % lbaSize == 0 && len % lbaSize == 0
      modifies this`winnerScans
      ensures segs == PlanOf(View(), lbaSize, scanCap, addr, len)
      ensures segs == PlanSeen(View(), View(), lbaSize, scanCap, addr, len)
      ensures if Unreadable(View(), lbaSize, scanCap, addr, len) then segs == [] else PlanOk(View(), addr, len, segs)
      ensures failed <==>
        segs == [] && exists d :: InTheWay(View(), addr, len, d) && d in slots && slots[d].outcome.Failed?
    {
      hide PlanSeen, T.TrkInv, SplitOf, PlanOk, AlignedSlots, Gap, LowestHit, FailedHit, InTheWay, Unreadable;
      ghost var t := View();
      FailureInTheWay(t, addr, len);
      FrontierLow(t);
      PlanIsBest(t, lbaSize, scanCap, addr, len);
      PlanOfIsSeen(t, lbaSize, scanCap, addr, len);
      if frontier >= highestAcked { return [Piece(addr, len, Max(frontier, highestAcked))], false; }
      var umin, anyFailed, anyGap := FindHits(addr, len);
      if umin < 0 { return [Piece(addr, len, highestAcked)], false; }
      if anyGap || highestAcked - umin > scanCap { return [], anyFailed; }
      segs := Split(addr, len, umin);
      failed := segs == [] && anyFailed;
    }
  }
}
