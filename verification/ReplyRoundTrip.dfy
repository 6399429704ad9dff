/** The read reply end to end: what the server builds from a read, the client turns back into the same bytes. */
module ReplyRoundTrip {
  import opened CraftTypes
  import Arith
  import opened Pieces
  import opened Replica
  import opened ReadLayout
  import opened Wire
  import opened SparseReply
  import opened Scatter
  import opened MemReplicas

  // ---------------------------------------------------------------- the layout describes the bytes

  lemma LayoutFits(cs: seq<Content>, addr: nat, ps: nat)
    requires |cs| > 0 && ps > 0 && addr % ps == 0
    ensures Tiles(LayoutOf(cs, addr, ps), addr, |cs| * ps)
    ensures Fits(LayoutOf(cs, addr, ps), addr, |cs| * ps)
  {
    var layout := LayoutOf(cs, addr, ps);
    CoalesceGroups(Holes(cs), addr, ps);
    forall k | 0 <= k < |layout| ensures addr <= layout[k].addr && layout[k].addr + layout[k].len <= addr + |cs| * ps {
      PieceAbove(layout, k);
      PieceBelow(layout, k);
    }
  }

  /** Bytes inside a hole extent are zero. */
  lemma HoleIsZero(cs: seq<Content>, addr: nat, ps: nat, k: nat, p: nat)
    requires |cs| > 0 && ps > 0 && addr % ps == 0 && PagesOk(cs, ps) && p < |BytesOf(cs, ps)|
    requires var layout := LayoutOf(cs, addr, ps);
      k < |layout| && layout[k].tag && layout[k].addr <= addr + p < layout[k].addr + layout[k].len
    ensures BytesOf(cs, ps)[p] == 0
  {
    hide BytesOf, Coalesce, BlockAt, PagesOk;
    var layout := LayoutOf(cs, addr, ps);
    CoalesceGroups(Holes(cs), addr, ps);
    BytesLength(cs, ps);
    hide LayoutOf;
    var b := BlockOf(addr, ps, |cs|, addr + p);
    assert PieceOk(Holes(cs), addr, ps, layout[k]);
    Arith.BlockOfByte(ps, layout[k].addr, layout[k].len, addr + p);
    Arith.BlockOfByte(ps, layout[k].addr, layout[k].len, BlockAt(addr, ps, b));
    assert cs[b].None?;
    ByteInBlock(addr, ps, b, p);
    BytesAt(cs, ps, b, p % ps);
  }

  lemma ByteInBlock(addr: nat, ps: nat, b: nat, p: nat)
    requires ps > 0 && addr % ps == 0 && BlockAt(addr, ps, b) / ps == (addr + p) / ps
    ensures p == ps * b + p % ps
  {
    Arith.ByteOffset(ps, addr, b, p);
  }

  // ---------------------------------------------------------------- the two forms of the body agree

  /** What a layout packs and the slices its targets name grow together. */
  lemma SlicesGrow(ts: seq<Target>, next: seq<Target>, t: Target, hole: bool,
                   was: seq<u8>, now: seq<u8>, image: seq<u8>)
    requires Inside(ts, |image|) && t.0 + t.1 <= |image| && was == Slices(ts, image)
    requires next == if hole then ts else ts + [t]
    requires now == if hole then was else was + image[t.0..t.0 + t.1]
    ensures Inside(next, |image|) && now == Slices(next, image)
  {
    if !hole { assert next[..|ts|] == ts; }
  }

  lemma NoneTargeted(layout: seq<Extent>, addr: nat, data: seq<u8>)
    requires layout == []
    ensures var ts := TargetsOf(DescsOf(layout), addr, false);
      Inside(ts, |data|) && Packed(layout, addr, data) == Slices(ts, data)
  {
  }

  /** The data targets of a layout, one extent at a time. */
  lemma TargetsNext(layout: seq<Extent>, addr: nat)
    requires layout != [] && forall k :: 0 <= k < |layout| ==> addr <= layout[k].addr
    ensures var init, e := layout[..|layout| - 1], layout[|layout| - 1];
      TargetsOf(DescsOf(layout), addr, false) ==
        if e.tag then TargetsOf(DescsOf(init), addr, false)
        else TargetsOf(DescsOf(init), addr, false) + [(e.addr - addr, e.len)]
  {
    var init := layout[..|layout| - 1];
    assert DescsOf(layout)[..|layout| - 1] == DescsOf(init);
    assert TargetsOf(DescsOf(init), addr, false) + [] == TargetsOf(DescsOf(init), addr, false);
  }

  /** The packed bytes of a layout, one extent at a time. */
  lemma PackedNext(layout: seq<Extent>, addr: nat, data: seq<u8>)
    requires layout != [] && Fits(layout, addr, |data|)
    ensures var init, e := layout[..|layout| - 1], layout[|layout| - 1];
      && Fits(init, addr, |data|) && addr <= e.addr && e.addr + e.len <= addr + |data|
      && Packed(layout, addr, data) ==
        if e.tag then Packed(init, addr, data)
        else Packed(init, addr, data) + data[e.addr - addr..e.addr - addr + e.len]
  {
    var init := layout[..|layout| - 1];
    assert Packed(init, addr, data) + [] == Packed(init, addr, data);
  }

  lemma {:induction false} PackedIsSlices(layout: seq<Extent>, addr: nat, data: seq<u8>)
    requires Fits(layout, addr, |data|)
    ensures Inside(TargetsOf(DescsOf(layout), addr, false), |data|)
    ensures Packed(layout, addr, data) == Slices(TargetsOf(DescsOf(layout), addr, false), data)
  {
    if layout == [] {
      NoneTargeted(layout, addr, data);
    } else {
      var init, e := layout[..|layout| - 1], layout[|layout| - 1];
      PackedNext(layout, addr, data);
      TargetsNext(layout, addr);
      PackedIsSlices(init, addr, data);
      hide *;
      SlicesGrow(TargetsOf(DescsOf(init), addr, false), TargetsOf(DescsOf(layout), addr, false),
                 (e.addr - addr, e.len), e.tag, Packed(init, addr, data), Packed(layout, addr, data), data);
    }
  }

  lemma {:induction false} HitHole(layout: seq<Extent>, addr: nat, p: nat) returns (k: nat)
    requires forall j :: 0 <= j < |layout| ==> addr <= layout[j].addr
    requires Hit(TargetsOf(DescsOf(layout), addr, true), p)
    ensures k < |layout| && layout[k].tag && layout[k].addr <= addr + p < layout[k].addr + layout[k].len
  {
    if layout == [] {
      assert false;
    } else {
      var init, e := layout[..|layout| - 1], layout[|layout| - 1];
      assert DescsOf(layout)[..|layout| - 1] == DescsOf(init);
      var ts := TargetsOf(DescsOf(init), addr, true);
      assert ts + [] == ts;
      HitLast(ts, (e.addr - addr, e.len), p);
      if e.tag && e.addr <= addr + p < e.addr + e.len {
        k := |layout| - 1;
      } else {
        k := HitHole(init, addr, p);
      }
    }
  }

  lemma EveryByteHit(layout: seq<Extent>, addr: nat, n: nat, p: nat)
    requires Tiles(layout, addr, n) && p < n && forall j :: 0 <= j < |layout| ==> addr <= layout[j].addr
    ensures Hit(TargetsAll(DescsOf(layout), addr), p)
  {
    var k := PieceOf(layout, addr, n, addr + p);
    var ts := TargetsAll(DescsOf(layout), addr);
    assert ts[k].0 <= p < ts[k].0 + ts[k].1;
  }

  lemma LayoutDescribes(cs: seq<Content>, addr: nat, ps: nat)
    requires |cs| > 0 && ps > 0 && addr % ps == 0 && PagesOk(cs, ps)
    ensures Fits(LayoutOf(cs, addr, ps), addr, |BytesOf(cs, ps)|)
    ensures Describes(DescsOf(LayoutOf(cs, addr, ps)), addr, BytesOf(cs, ps))
  {
    var layout, image := LayoutOf(cs, addr, ps), BytesOf(cs, ps);
    BytesLength(cs, ps);
    LayoutFits(cs, addr, ps);
    hide BytesOf, LayoutOf, TargetsOf;
    forall p: nat | p < |image| ensures Hit(TargetsAll(DescsOf(layout), addr), p) {
      EveryByteHit(layout, addr, |image|, p);
    }
    forall p: nat | p < |image| && Hit(TargetsOf(DescsOf(layout), addr, true), p) ensures image[p] == 0 {
      var k := HitHole(layout, addr, p);
      HoleIsZero(cs, addr, ps, k, p);
    }
  }

  lemma FitsSmall(layout: seq<Extent>, addr: nat, n: nat)
    requires Fits(layout, addr, n) && addr + n < TWO_64
    ensures Small(DescsOf(layout))
  {
  }

  lemma HonestBody(layout: seq<Extent>, addr: nat, image: seq<u8>)
    requires Fits(layout, addr, |image|) && Describes(DescsOf(layout), addr, image) && addr + |image| < TWO_64
    ensures var body := Table(DescsOf(layout)) + Packed(layout, addr, image);
      Honest(body, |layout|, addr, |image|, DescsOf(layout), image)
  {
    FitsSmall(layout, addr, |image|);
    PackedIsSlices(layout, addr, image);
    hide Table, Packed, Slices, TargetsOf, Fits, Describes, Small;
  }

  /** The reply a server builds for blocks `cs` is honest about their bytes. */
  lemma ServerIsHonest(cs: seq<Content>, addr: nat, ps: nat)
    requires |cs| > 0 && ps > 0 && addr % ps == 0 && PagesOk(cs, ps) && addr + |BytesOf(cs, ps)| < TWO_64
    ensures Fits(LayoutOf(cs, addr, ps), addr, |BytesOf(cs, ps)|)
    ensures var layout, image := LayoutOf(cs, addr, ps), BytesOf(cs, ps);
      Honest(Table(DescsOf(layout)) + Packed(layout, addr, image), |layout|, addr, |image|, DescsOf(layout), image)
  {
    LayoutDescribes(cs, addr, ps);
    hide BytesOf, LayoutOf, Honest, Table, Packed, Describes, PagesOk;
    HonestBody(LayoutOf(cs, addr, ps), addr, BytesOf(cs, ps));
  }

  lemma Readable(v: Rep)
    requires RepInv(v)
    ensures v.pageSize > 0 && JournalOk(v.pageSize, v.journal)
  {
  }

  /** A reply body is honest about the bytes replica `v` shows at horizon `h`. */
  ghost predicate Answers(v: Rep, h: Lsn, addr: nat, len: nat, body: seq<u8>, count: nat, es: seq<Desc>) {
    && v.pageSize > 0 && JournalOk(v.pageSize, v.journal)
    && Honest(body, count, addr, len, es, BytesOf(RangeShown(v, h, addr, len), v.pageSize))
  }

  method ReplyBody(layout: seq<Extent>, addr: nat, data: seq<u8>, ghost v: Rep, ghost h: Lsn, ghost payload: nat)
    returns (body: seq<u8>)
    requires RepInv(v) && Aligned(v.pageSize, addr, |data|) && addr < TWO_64 && |data| < TWO_64
    requires var cs := RangeShown(v, h, addr, |data|);
      |cs| > 0 && layout == LayoutOf(cs, addr, v.pageSize) && data == BytesOf(cs, v.pageSize)
    ensures addr + |data| < TWO_64 ==> Answers(v, h, addr, |data|, body, |layout|, DescsOf(layout))
    ensures StartsAt(body, |layout|, addr)
    ensures Roomy(v.pageSize, |data|, payload) ==> |body| <= FramedBodyMax(payload, v.pageSize)
  {
    Readable(v);
    RangeIsReplay(v, h, addr, |data|);
    ghost var cs := RangeShown(v, h, addr, |data|);
    LayoutStarts(cs, addr, v.pageSize);
    hide BytesOf, LayoutOf, Honest, Table, Packed, PagesOk, RangeShown, ReplayedBytes, RepInv, Decoded, Fits, StartsAt;
    hide DescsOf, Roomy, FramedBodyMax;
    body := BuildBody(layout, addr, data);
    BodyStarts(layout, addr, data);
    if Roomy(v.pageSize, |data|, payload) { BodyFits(cs, addr, v.pageSize, payload); }
    if addr + |data| < TWO_64 { ServerIsHonest(cs, addr, v.pageSize); }
  }

  lemma BodyStarts(layout: seq<Extent>, addr: nat, data: seq<u8>)
    requires |layout| > 0 && layout[0].addr == addr < TWO_64 && layout[0].len < TWO_64 && Fits(layout, addr, |data|)
    ensures StartsAt(Table(DescsOf(layout)) + Packed(layout, addr, data), |layout|, addr)
  {
    hide Table, Packed, Decoded;
    FirstBack(DescsOf(layout), Packed(layout, addr, data));
  }

  /** The first descriptor of a reply body starts where the request does. */
  predicate StartsAt(body: seq<u8>, count: nat, addr: nat) {
    && 0 < count && DESC_SIZE * count <= |body|
    && Decoded(body, count)[0].addr == addr && Decoded(body, count)[0].len < TWO_64
  }

  lemma LayoutStarts(cs: seq<Content>, addr: nat, ps: nat)
    requires |cs| > 0 && ps > 0 && addr % ps == 0 && PagesOk(cs, ps)
    ensures var layout := LayoutOf(cs, addr, ps);
      && |layout| > 0 && layout[0].addr == addr && layout[0].len <= |BytesOf(cs, ps)|
      && Fits(layout, addr, |BytesOf(cs, ps)|)
  {
    LayoutDescribes(cs, addr, ps);
    CoalesceGroups(Holes(cs), addr, ps);
  }

  /** So a request that runs past 2^64 is refused by the scatter plan. */
  lemma WrappedRefused(body: seq<u8>, count: nat, addr: nat, len: nat)
    requires StartsAt(body, count, addr) && addr < TWO_64 && len < TWO_64 <= addr + len
    ensures !Plannable(body, count, addr, len)
  {
    PastTheEnd(Decoded(body, count)[0], addr, len);
  }

  function Refusal(ps: nat, term: nat, hdr: Hdr, addr: nat, len: nat): Option<CraftError>
    requires ps > 0
  {
    if !Aligned(ps, addr, len) then Some(InvalidArgument) else if hdr.term != term then Some(StaleTerm) else None
  }

  /**
   * The server's read: what the replica refuses is passed on; otherwise the body is honest
   * about the bytes it shows.
   */
  method ServerReply(r: MemReplica, hdr: Hdr, h: Lsn, addr: nat, len: nat, ghost payload: nat)
    returns (refused: Option<CraftError>, body: seq<u8>, count: nat, ghost es: seq<Desc>)
    requires r.Valid() && addr < TWO_64 && len < TWO_64
    modifies r
    ensures r.Valid() && refused == Refusal(r.pageSize, old(r.term), hdr, addr, len)
    ensures r.View() == if refused.Some? then old(r.View()) else DoKeepAlive(old(r.View()), hdr).0
    ensures refused.None? && addr + len < TWO_64 ==> Answers(r.View(), h, addr, len, body, count, es)
    ensures refused.None? ==> StartsAt(body, count, addr)
    ensures refused.Some? ==> body == [] && count == 0
    ensures refused.None? && Roomy(r.pageSize, len, payload) ==> |body| <= FramedBodyMax(payload, r.pageSize)
  {
    Readable(r.View());
    hide BytesOf, LayoutOf, RepInv, DoKeepAlive, RangeShown, Aligned, Answers, StartsAt, Roomy, FramedBodyMax;
    refused, body, count, es := None, [], 0, [];
    var buf := new u8[len];
    var reply := r.DoRead(hdr, h, addr, len, buf);
    if reply.Err? { refused := Some(reply.error); return; }
    var layout := reply.value.0;
    assert buf[..] == buf[..len];
    body := ReplyBody(layout, addr, buf[..], r.View(), h, payload);
    count, es := |layout|, DescsOf(layout);
  }

  /**
   * A remote read: the replica fills a buffer, the server turns it into a reply body, and
   * the client rebuilds exactly the bytes naive replay of the journal gives. A refusal
   * touches nothing; a range that runs past 2^64 is served and then refused by the client.
   */
  method RemoteRead(r: MemReplica, hdr: Hdr, h: Lsn, addr: nat, len: nat, dest: array<u8>)
    returns (result: Result<Outcome, CraftError>)
    requires r.Valid() && addr < TWO_64 && len < TWO_64
    modifies r, dest
    ensures r.Valid()
    ensures dest.Length < len ==> result == Err(InvalidArgument)
    ensures len <= dest.Length ==>
      result == var refused := Refusal(r.pageSize, old(r.term), hdr, addr, len);
        if refused.Some? then Err(refused.value) else Ok(if addr + len < TWO_64 then Filled else Malformed)
    ensures result.Err? ==> r.View() == old(r.View())
    ensures result != Ok(Filled) ==> dest[..] == old(dest[..])
    ensures result.Ok? ==> r.View() == DoKeepAlive(old(r.View()), hdr).0
    ensures result == Ok(Filled) ==> dest[..len] == ReplayedBytes(r.pageSize, r.journal, Max(h, r.commit), addr, len)
    ensures forall p :: len <= p < dest.Length ==> dest[p] == old(dest[p])
  {
    Readable(r.View());
    hide BytesOf, Honest, RepInv, DoKeepAlive, RangeShown, ReplayedBytes, Acceptable, Plannable, Aligned;
    hide Refusal, StartsAt;
    if dest.Length < len { return Err(InvalidArgument); }
    var refused, body, count, es := ServerReply(r, hdr, h, addr, len, len);
    if refused.Some? { return Err(refused.value); }
    RangeIsReplay(r.View(), h, addr, len);
    ghost var image := BytesOf(RangeShown(r.View(), h, addr, len), r.pageSize);
    if addr + len >= TWO_64 { WrappedRefused(body, count, addr, len); }
    var outcome := FillFromReply(body, count, addr, len, dest, es, image);
    return Ok(outcome);
  }

  // ---------------------------------------------------------------- how large a body gets

  /** framed_body_max(), in 32-bit arithmetic that wraps. */
  function FramedBodyMax(payload: nat, lba: nat): nat {
    var blocks := if lba == 0 then 0 else (payload + lba - 1) % TWO_32 / lba;
    (payload + blocks * DESC_SIZE % TWO_32) % TWO_32
  }

  /** A transfer of `len` bytes is within the advertised payload, and the 32-bit sum does not overflow. */
  predicate Roomy(ps: nat, len: nat, payload: nat) {
    && len <= payload && ps > 0 && payload + ps - 1 < TWO_32
    && payload + (payload + ps - 1) / ps * DESC_SIZE < TWO_32
  }

  lemma {:induction false} FewExtents<T>(tags: seq<T>, addr: nat, lba: nat)
    requires |tags| > 0
    ensures |Coalesce(tags, addr, lba)| <= |tags|
  {
    if |tags| > 1 { FewExtents(tags[..|tags| - 1], addr, lba); }
  }

  lemma {:induction false} PackedSize(layout: seq<Extent>, addr: nat, data: seq<u8>)
    requires Fits(layout, addr, |data|) && layout != []
    requires Tiles(layout, addr, layout[|layout| - 1].addr + layout[|layout| - 1].len - addr)
    ensures |Packed(layout, addr, data)| <= layout[|layout| - 1].addr + layout[|layout| - 1].len - addr
  {
    if |layout| > 1 {
      PackedSize(layout[..|layout| - 1], addr, data);
    }
  }

  /** A full-payload read reply fits the framing bound as long as the 32-bit sum does not overflow. */
  lemma BodyFits(cs: seq<Content>, addr: nat, ps: nat, payload: nat)
    requires |cs| > 0 && ps > 0 && addr % ps == 0 && PagesOk(cs, ps)
    requires Roomy(ps, |BytesOf(cs, ps)|, payload)
    ensures Fits(LayoutOf(cs, addr, ps), addr, |BytesOf(cs, ps)|)
    ensures |Table(DescsOf(LayoutOf(cs, addr, ps))) + Packed(LayoutOf(cs, addr, ps), addr, BytesOf(cs, ps))|
            <= FramedBodyMax(payload, ps)
  {
    var layout, image := LayoutOf(cs, addr, ps), BytesOf(cs, ps);
    BytesLength(cs, ps);
    LayoutFits(cs, addr, ps);
    FewExtents(Holes(cs), addr, ps);
    assert |layout| <= |cs|;
    PackedSize(layout, addr, image);
    BlocksFit(|cs|, ps, payload);
    MaxExact(payload, ps);
    hide *;
  }

  lemma MaxExact(payload: nat, ps: nat)
    requires ps > 0 && payload + ps - 1 < TWO_32 && payload + (payload + ps - 1) / ps * DESC_SIZE < TWO_32
    ensures FramedBodyMax(payload, ps) == payload + (payload + ps - 1) / ps * DESC_SIZE
  {
    var blocks := (payload + ps - 1) / ps;
    SmallMod(payload + ps - 1);
    SmallMod(blocks * DESC_SIZE);
    SmallMod(payload + blocks * DESC_SIZE);
  }

  lemma SmallMod(n: nat)
    requires n < TWO_32
    ensures n % TWO_32 == n
  {
  }

  lemma BlocksFit(n: nat, ps: nat, payload: nat)
    requires ps > 0 && ps * n <= payload
    ensures n <= (payload + ps - 1) / ps
  {
    var q := (payload + ps - 1) / ps;
    assert payload + ps - 1 == ps * q + (payload + ps - 1) % ps;
    assert ps * (q + 1) == ps * q + ps;
    if q < n { Arith.MulMono(ps, q + 1, n); }
  }
}
