/** What a read returns: the bytes, and the layout of data and holes. */
module ReadLayout {
  import opened CraftTypes
  import Arith
  import opened Pieces
  import opened Replica

  /** A run of blocks; the tag says whether it is a hole. */
  type Extent = Piece<bool>

  predicate AllZero(p: Page) {
    forall k :: 0 <= k < |p| ==> p[k] == 0
  }

  /** An all-zero page reads back as a hole. */
  function Thin(c: Content): Content {
    if c.Some? && AllZero(c.value) then None else c
  }

  /** The blocks a read at `h` shows, from block `lba` on. */
  function BlocksShown(r: Rep, h: Lsn, lba: nat, n: nat): (cs: seq<Content>)
    requires JournalOk(r.pageSize, r.journal)
    ensures |cs| == n && forall i :: 0 <= i < n ==> cs[i] == Thin(ReadBlock(r, h, lba + i))
  {
    seq(n, i requires 0 <= i < n => Thin(ReadBlock(r, h, lba + i)))
  }

  /** The blocks a read of [addr, addr + len) shows. */
  function RangeShown(r: Rep, h: Lsn, addr: nat, len: nat): (cs: seq<Content>)
    requires r.pageSize > 0 && JournalOk(r.pageSize, r.journal)
  {
    BlocksShown(r, h, addr / r.pageSize, len / r.pageSize)
  }

  function Zeroes(n: nat): (s: seq<u8>)
    ensures |s| == n && forall k :: 0 <= k < n ==> s[k] == 0
  {
    seq(n, _ => 0)
  }

  function PageBytes(c: Content, ps: nat): seq<u8> {
    if c.None? then Zeroes(ps) else c.value
  }

  /** The bytes of consecutive blocks. */
  function BytesOf(cs: seq<Content>, ps: nat): seq<u8> {
    if cs == [] then [] else BytesOf(cs[..|cs| - 1], ps) + PageBytes(cs[|cs| - 1], ps)
  }

  ghost predicate PagesOk(cs: seq<Content>, ps: nat) {
    forall i :: 0 <= i < |cs| && cs[i].Some? ==> |cs[i].value| == ps
  }

  lemma {:induction false} BytesLength(cs: seq<Content>, ps: nat)
    requires PagesOk(cs, ps)
    ensures |BytesOf(cs, ps)| == ps * |cs|
  {
    if cs != [] {
      BytesLength(cs[..|cs| - 1], ps);
      assert ps * (|cs| - 1) + ps == ps * |cs|;
    }
  }

  function Holes(cs: seq<Content>): (t: seq<bool>)
    ensures |t| == |cs| && forall i :: 0 <= i < |cs| ==> t[i] == cs[i].None?
  {
    seq(|cs|, i requires 0 <= i < |cs| => cs[i].None?)
  }

  /** The layout of a read: maximal runs of data and of holes. */
  function LayoutOf(cs: seq<Content>, addr: nat, ps: nat): (layout: seq<Extent>)
    requires |cs| > 0
  {
    Coalesce(Holes(cs), addr, ps)
  }

  /** What a read shows is block-sized, whatever the horizon. */
  lemma ShownPagesOk(r: Rep, h: Lsn, lba: nat, n: nat)
    requires RepInv(r)
    ensures PagesOk(BlocksShown(r, h, lba, n), r.pageSize)
  {
    var cs := BlocksShown(r, h, lba, n);
    forall i | 0 <= i < n && cs[i].Some? ensures |cs[i].value| == r.pageSize {
      ReadRefinesReplay(r, h, lba + i);
      ReplayPages(r.pageSize, r.journal, Max(h, r.commit), lba + i);
    }
  }

  lemma {:induction false} ReplayPages(ps: nat, j: Journal, h: Lsn, x: nat)
    requires JournalOk(ps, j)
    ensures var c := At(Replay(ps, j, h), x); c.Some? ==> |c.value| == ps
    decreases h + 1
  {
    if h >= 0 {
      ReplayPages(ps, j, h - 1, x);
      if h in j && Covers(j[h], x) { assert SlotOk(ps, j[h]); }
    }
  }

  // ---------------------------------------------------------------- against naive replay

  /** The blocks naive replay up to `h` leaves. */
  ghost function ReplayBlocks(ps: nat, j: Journal, h: Lsn, lba: nat, n: nat): (cs: seq<Content>)
    requires JournalOk(ps, j)
    ensures |cs| == n && forall i :: 0 <= i < n ==> cs[i] == At(Replay(ps, j, h), lba + i)
  {
    seq(n, i requires 0 <= i < n => At(Replay(ps, j, h), lba + i))
  }

  lemma {:induction false} SameBytes(a: seq<Content>, b: seq<Content>, ps: nat)
    requires |a| == |b| && forall i :: 0 <= i < |a| ==> PageBytes(a[i], ps) == PageBytes(b[i], ps)
    ensures BytesOf(a, ps) == BytesOf(b, ps)
  {
    if a != [] { SameBytes(a[..|a| - 1], b[..|b| - 1], ps); }
  }

  /** read_range returns, byte for byte, what replaying the journal up to the horizon would give. */
  lemma ReadBytesAreReplay(r: Rep, h: Lsn, lba: nat, n: nat)
    requires RepInv(r)
    ensures BytesOf(BlocksShown(r, h, lba, n), r.pageSize) ==
            BytesOf(ReplayBlocks(r.pageSize, r.journal, Max(h, r.commit), lba, n), r.pageSize)
  {
    var a, b := BlocksShown(r, h, lba, n), ReplayBlocks(r.pageSize, r.journal, Max(h, r.commit), lba, n);
    forall i | 0 <= i < n ensures PageBytes(a[i], r.pageSize) == PageBytes(b[i], r.pageSize) {
      ReadRefinesReplay(r, h, lba + i);
      ReplayPages(r.pageSize, r.journal, Max(h, r.commit), lba + i);
      if b[i].Some? && AllZero(b[i].value) { assert b[i].value == Zeroes(r.pageSize); }
    }
    SameBytes(a, b, r.pageSize);
  }

  /** The bytes of [addr, addr + len) after naive replay of the journal up to `h`. */
  ghost function ReplayedBytes(ps: nat, j: Journal, h: Lsn, addr: nat, len: nat): (s: seq<u8>)
    requires ps > 0 && JournalOk(ps, j)
  {
    BytesOf(ReplayBlocks(ps, j, h, addr / ps, len / ps), ps)
  }

  lemma RangeIsReplay(r: Rep, h: Lsn, addr: nat, len: nat)
    requires RepInv(r)
    ensures PagesOk(RangeShown(r, h, addr, len), r.pageSize)
    ensures BytesOf(RangeShown(r, h, addr, len), r.pageSize) ==
            ReplayedBytes(r.pageSize, r.journal, Max(h, r.commit), addr, len)
  {
    hide BytesOf, PagesOk, BlocksShown, ReplayBlocks;
    ShownPagesOk(r, h, addr / r.pageSize, len / r.pageSize);
    ReadBytesAreReplay(r, h, addr / r.pageSize, len / r.pageSize);
  }

  // ---------------------------------------------------------------- the layout against the bytes

  lemma {:induction false} BytesAt(cs: seq<Content>, ps: nat, b: nat, o: nat)
    requires PagesOk(cs, ps) && b < |cs| && o < ps
    ensures |PageBytes(cs[b], ps)| == ps && ps * b + o < |BytesOf(cs, ps)|
    ensures BytesOf(cs, ps)[ps * b + o] == PageBytes(cs[b], ps)[o]
  {
    var n := |cs| - 1;
    BytesLength(cs, ps);
    BytesLength(cs[..n], ps);
    Arith.MulMono(ps, b + 1, |cs|);
    assert ps * (b + 1) == ps * b + ps;
    if b < n {
      Arith.MulMono(ps, b + 1, n);
      BytesAt(cs[..n], ps, b, o);
    }
  }

  predicate ZeroBlock(image: seq<u8>, ps: nat, b: nat)
    requires ps * b + ps <= |image|
  {
    image[ps * b..ps * b + ps] == Zeroes(ps)
  }

  lemma BlockInside(ps: nat, b: nat, n: nat)
    requires b < n
    ensures ps * b + ps <= ps * n
  {
    Arith.MulMono(ps, b + 1, n);
  }

  /** What is shown as a hole is exactly what reads as zeros. */
  lemma HoleExactly(cs: seq<Content>, ps: nat, b: nat)
    requires PagesOk(cs, ps) && b < |cs| && Thin(cs[b]) == cs[b]
    ensures ps * b + ps <= |BytesOf(cs, ps)| && (cs[b].None? <==> ZeroBlock(BytesOf(cs, ps), ps, b))
  {
    hide BytesOf;
    BytesLength(cs, ps);
    BlockInside(ps, b, |cs|);
    var block := BytesOf(cs, ps)[ps * b..ps * b + ps];
    forall o: nat | o < ps ensures |PageBytes(cs[b], ps)| == ps && block[o] == PageBytes(cs[b], ps)[o] {
      BytesAt(cs, ps, b, o);
    }
    assert block == PageBytes(cs[b], ps);
  }

  /** The extents tile the range, data and holes take turns, and a block is in a hole exactly when it is all zeros. */
  ghost predicate LayoutTells(layout: seq<Extent>, image: seq<u8>, addr: nat, ps: nat, n: nat) {
    && Tiles(layout, addr, n * ps) && |image| == ps * n
    && (forall k :: 0 < k < |layout| ==> layout[k].tag != layout[k - 1].tag)
    && (forall k, b: nat :: 0 <= k < |layout| && b < n && InPiece(layout[k], BlockAt(addr, ps, b)) ==>
          ps * b + ps <= |image| && (layout[k].tag <==> ZeroBlock(image, ps, b)))
  }

  lemma LayoutIsTrue(cs: seq<Content>, addr: nat, ps: nat)
    requires |cs| > 0 && ps > 0 && addr % ps == 0 && PagesOk(cs, ps)
    requires forall i :: 0 <= i < |cs| ==> Thin(cs[i]) == cs[i]
    ensures LayoutTells(LayoutOf(cs, addr, ps), BytesOf(cs, ps), addr, ps, |cs|)
  {
    hide BytesOf, Coalesce, BlockAt, PagesOk, Thin;
    CoalesceGroups(Holes(cs), addr, ps);
    BytesLength(cs, ps);
    var layout := LayoutOf(cs, addr, ps);
    forall k, b: nat | 0 <= k < |layout| && b < |cs| && InPiece(layout[k], BlockAt(addr, ps, b))
      ensures ps * b + ps <= |BytesOf(cs, ps)| && (layout[k].tag <==> ZeroBlock(BytesOf(cs, ps), ps, b))
    {
      assert PieceOk(Holes(cs), addr, ps, layout[k]);
      HoleExactly(cs, ps, b);
    }
  }

  /** A read's layout tells the truth about its bytes, and they are those of naive replay. */
  lemma RangeIsTold(r: Rep, h: Lsn, addr: nat, len: nat)
    requires RepInv(r) && Aligned(r.pageSize, addr, len)
    ensures var cs := RangeShown(r, h, addr, len);
      && |cs| > 0 && BytesOf(cs, r.pageSize) == ReplayedBytes(r.pageSize, r.journal, Max(h, r.commit), addr, len)
      && LayoutTells(LayoutOf(cs, addr, r.pageSize), BytesOf(cs, r.pageSize), addr, r.pageSize, len / r.pageSize)
  {
    hide LayoutTells, LayoutOf, BytesOf, PagesOk, ReplayedBytes;
    RangeIsReplay(r, h, addr, len);
    LayoutIsTrue(RangeShown(r, h, addr, len), addr, r.pageSize);
  }
}
