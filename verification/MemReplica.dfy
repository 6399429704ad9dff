/** One in-memory replica as the object it is, each method against its specification. */
module MemReplicas {
  import opened CraftTypes
  import Arith
  import opened Pieces
  import R = Replica
  import opened ReadLayout

  /** Copy one page into place, or clear it for a hole. */
  method WritePage(dest: array<u8>, at: nat, c: R.Content, ps: nat)
    requires at + ps <= dest.Length && (c.Some? ==> |c.value| == ps)
    modifies dest
    ensures dest[..at] == old(dest[..at]) && dest[at..at + ps] == PageBytes(c, ps)
    ensures dest[at + ps..] == old(dest[at + ps..])
  {
    for k := 0 to ps
      invariant dest[..at] == old(dest[..at]) && dest[at + ps..] == old(dest[at + ps..])
      invariant forall j :: 0 <= j < k ==> dest[at + j] == PageBytes(c, ps)[j]
    {
      dest[at + k] := if c.Some? then c.value[k] else 0;
    }
  }

  lemma Blocks(addr: nat, len: nat, ps: nat)
    requires ps > 0 && R.Aligned(ps, addr, len)
    ensures len / ps > 0 && Offset(ps, len / ps) == len
  {
    var n := Arith.Whole(ps, len);
  }

  lemma NoBytes(cs: seq<R.Content>, ps: nat)
    ensures BytesOf(cs[..0], ps) == []
  {
  }

  lemma NoOffset(ps: nat)
    ensures Offset(ps, 0) == 0
  {
  }

  lemma PageSized(cs: seq<R.Content>, ps: nat, i: nat)
    requires i < |cs| && PagesOk(cs, ps)
    ensures cs[i].Some? ==> |cs[i].value| == ps
  {
  }

  lemma BytesStep(cs: seq<R.Content>, ps: nat, i: nat)
    requires i < |cs|
    ensures BytesOf(cs[..i + 1], ps) == BytesOf(cs[..i], ps) + PageBytes(cs[i], ps)
  {
    assert cs[..i + 1][..i] == cs[..i];
  }

  /** A block joins the previous extent if it continues it. */
  function Added(layout: seq<Extent>, at: nat, ps: nat, hole: bool): seq<Extent> {
    if layout == [] then [Piece(at, ps, hole)] else
    var last := layout[|layout| - 1];
    if last.tag == hole && last.addr + last.len == at then layout[..|layout| - 1] + [last.(len := last.len + ps)]
    else layout + [Piece(at, ps, hole)]
  }

  lemma BlockAddr(addr: nat, ps: nat, i: nat)
    requires ps > 0 && addr % ps == 0
    ensures (addr / ps + i) * ps == BlockAt(addr, ps, i)
  {
    var a := Arith.Whole(ps, addr);
    assert (a + i) * ps == ps * a + i * ps;
  }

  lemma HolesStep(cs: seq<R.Content>, i: nat)
    requires i < |cs|
    ensures Holes(cs[..i + 1])[..i] == Holes(cs[..i]) && Holes(cs[..i + 1])[i] == cs[i].None?
  {
  }

  /** The last extent of a layout ends where the range does. */
  lemma LayoutEnd(cs: seq<R.Content>, addr: nat, ps: nat)
    requires |cs| > 0 && ps > 0 && addr % ps == 0
    ensures var layout := LayoutOf(cs, addr, ps);
      |layout| > 0 && layout[|layout| - 1].addr + layout[|layout| - 1].len == BlockAt(addr, ps, |cs|)
  {
    CoalesceGroups(Holes(cs), addr, ps);
  }

  lemma LayoutStep(cs: seq<R.Content>, addr: nat, ps: nat, i: nat)
    requires i < |cs| && ps > 0 && addr % ps == 0
    ensures LayoutOf(cs[..i + 1], addr, ps) ==
      Added(if i == 0 then [] else LayoutOf(cs[..i], addr, ps), BlockAt(addr, ps, i), ps, cs[i].None?)
  {
    hide Holes;
    HolesStep(cs, i);
    if i > 0 {
      LayoutEnd(cs[..i], addr, ps);
      CoalesceStep(Holes(cs[..i + 1]), addr, ps);
    }
    hide Coalesce, BlockAt;
  }

  /** Where block `i` of a read goes in the destination. */
  function Offset(ps: nat, i: nat): nat {
    ps * i
  }

  lemma NextOffset(ps: nat, i: nat, n: nat)
    requires i < n
    ensures Offset(ps, i) + ps == Offset(ps, i + 1) <= Offset(ps, n)
  {
    Arith.MulMono(ps, i + 1, n);
  }

  method AddBlock(layout: seq<Extent>, at: nat, ps: nat, hole: bool) returns (out: seq<Extent>)
    ensures out == Added(layout, at, ps, hole)
  {
    if layout != [] {
      var last := layout[|layout| - 1];
      if last.tag == hole && last.addr + last.len == at {
        return layout[..|layout| - 1] + [last.(len := last.len + ps)];
      }
    }
    return layout + [Piece(at, ps, hole)];
  }

  // ---------------------------------------------------------------- the round of a lone replica

  /** Every dLSN in [lo, hi] without an entry gets a tombstone. */
  function FilledIn(j: R.Journal, lo: Lsn, hi: Lsn): (j': R.Journal)
    decreases hi - lo + 1
  {
    if hi < lo then j
    else
      var k := FilledIn(j, lo, hi - 1);
      if hi in k then k else k[hi := R.EmptySlot]
  }

  /** The tombstones in [lo, hi], ascending. */
  function EmptiesIn(j: R.Journal, lo: Lsn, hi: Lsn): (s: seq<Lsn>)
    decreases hi - lo + 1
  {
    if hi < lo then [] else EmptiesIn(j, lo, hi - 1) + (if hi in j && j[hi].EmptySlot? then [hi] else [])
  }

  ghost function ResolvedLocally(r: R.Rep, upto: Lsn): R.Rep
    requires R.RepInv(r)
  {
    FilledOk(r, upto);
    R.ApplyUpTo(r.(journal := FilledIn(r.journal, r.commit + 1, upto), lastAppend := Max(r.lastAppend, upto)), upto)
  }

  lemma {:induction false} FilledAt(j: R.Journal, lo: Lsn, hi: Lsn, d: Lsn)
    ensures d in FilledIn(j, lo, hi) <==> d in j || lo <= d <= hi
    ensures d in j ==> FilledIn(j, lo, hi)[d] == j[d]
    ensures d !in j && lo <= d <= hi ==> FilledIn(j, lo, hi)[d] == R.EmptySlot
    decreases hi - lo + 1
  {
    if lo <= hi { FilledAt(j, lo, hi - 1, d); }
  }

  lemma FilledOk(r: R.Rep, upto: Lsn)
    requires R.RepInv(r)
    ensures R.RepInv(r.(journal := FilledIn(r.journal, r.commit + 1, upto), lastAppend := Max(r.lastAppend, upto)))
  {
    var j := FilledIn(r.journal, r.commit + 1, upto);
    forall d ensures d in j ==> R.SlotOk(r.pageSize, j[d]) { FilledAt(r.journal, r.commit + 1, upto, d); }
    forall d | 0 <= d <= r.commit ensures d in j && j[d] == r.journal[d] { FilledAt(r.journal, r.commit + 1, upto, d); }
    R.ReplayDependsOnPrefix(r.pageSize, r.journal, j, r.commit);
  }

  /**
   * Everything up to `upto` has an entry and is committed: the entries there were, and a
   * tombstone for each dLSN above the old committed prefix that had none.
   */
  ghost predicate SettledAlone(r: R.Rep, r': R.Rep, upto: Lsn) {
    && r'.term == r.term && r'.token == r.token && r'.lastAppend == Max(r.lastAppend, upto)
    && r'.commit == Max(r.commit, upto)
    && (forall d :: d in r'.journal <==> d in r.journal || r.commit < d <= upto)
    && (forall d :: d in r'.journal ==> r'.journal[d] == if d in r.journal then r.journal[d] else R.EmptySlot)
  }

  lemma SettlesAlone(r: R.Rep, upto: Lsn)
    requires R.RepInv(r)
    ensures SettledAlone(r, ResolvedLocally(r, upto), upto)
  {
    hide FilledIn, R.RepInv, R.ApplyUpTo;
    var j := FilledIn(r.journal, r.commit + 1, upto);
    var filled, r' := r.(journal := j, lastAppend := Max(r.lastAppend, upto)), ResolvedLocally(r, upto);
    FilledOk(r, upto);
    JournalFine(filled);
    assert r' == R.ApplyUpTo(filled, upto);
    forall d
      ensures d in j <==> d in r.journal || r.commit < d <= upto
      ensures d in j ==> j[d] == if d in r.journal then r.journal[d] else R.EmptySlot
    {
      FilledAt(r.journal, r.commit + 1, upto, d);
    }
    assert r'.commit < upto ==> r'.commit + 1 in j;
  }

  lemma {:induction false} EmptiesSame(a: R.Journal, b: R.Journal, lo: Lsn, hi: Lsn)
    requires forall d :: lo <= d <= hi ==> (d in a <==> d in b) && (d in a ==> a[d] == b[d])
    ensures EmptiesIn(a, lo, hi) == EmptiesIn(b, lo, hi)
    decreases hi - lo + 1
  {
    if lo <= hi { EmptiesSame(a, b, lo, hi - 1); }
  }

  /** One more dLSN of the local round. */
  lemma FillNext(j: R.Journal, lo: Lsn, d: Lsn)
    requires lo <= d
    ensures var a, b := FilledIn(j, lo, d - 1), FilledIn(j, lo, d);
      && b == (if d in a then a else a[d := R.EmptySlot])
      && EmptiesIn(b, lo, d) == EmptiesIn(a, lo, d - 1) + (if d !in a || a[d].EmptySlot? then [d] else [])
  {
    EmptiesSame(FilledIn(j, lo, d - 1), FilledIn(j, lo, d), lo, d - 1);
  }

  /** The reported list is exactly the tombstones of the range, in order. */
  lemma {:induction false} EmptiesExact(j: R.Journal, lo: Lsn, hi: Lsn)
    ensures forall d :: d in EmptiesIn(j, lo, hi) <==> lo <= d <= hi && d in j && j[d].EmptySlot?
    ensures Ascending(EmptiesIn(j, lo, hi))
    decreases hi - lo + 1
  {
    if lo <= hi {
      EmptiesExact(j, lo, hi - 1);
      var s := EmptiesIn(j, lo, hi - 1);
      assert forall a :: 0 <= a < |s| ==> s[a] in s;
    }
  }

  lemma NoEmpties(j: R.Journal, lo: Lsn)
    ensures EmptiesIn(j, lo, lo - 1) == [] && FilledIn(j, lo, lo - 1) == j
  {
  }

  lemma NothingToFill(j: R.Journal, lo: Lsn, upto: Lsn, last: Lsn)
    requires last == upto || (last == lo - 1 && upto < lo)
    ensures FilledIn(j, lo, last) == FilledIn(j, lo, upto)
    ensures EmptiesIn(FilledIn(j, lo, last), lo, last) == EmptiesIn(FilledIn(j, lo, upto), lo, upto)
  {
  }

  lemma JournalFine(r: R.Rep)
    requires R.RepInv(r)
    ensures R.JournalOk(r.pageSize, r.journal)
  {
  }

  ghost predicate Ascending(s: seq<Lsn>) {
    forall a, b :: 0 <= a < b < |s| ==> s[a] < s[b]
  }

  /** One step of applying: paint the next slot, if it is there. */
  lemma ApplyNext(r: R.Rep, target: Lsn)
    requires R.JournalOk(r.pageSize, r.journal) && r.commit < target && r.commit + 1 in r.journal
    ensures R.SlotOk(r.pageSize, r.journal[r.commit + 1])
    ensures R.ApplyUpTo(r, target) ==
      R.ApplyUpTo(r.(commit := r.commit + 1, index := R.Paint(r.index, r.journal[r.commit + 1])), target)
    ensures r.journal[r.commit + 1].EmptySlot? ==> R.Paint(r.index, r.journal[r.commit + 1]) == r.index
  {
    assert R.SlotOk(r.pageSize, r.journal[r.commit + 1]);
  }

  lemma ApplyEnd(r: R.Rep, target: Lsn)
    requires R.JournalOk(r.pageSize, r.journal) && (r.commit >= target || r.commit + 1 !in r.journal)
    ensures R.ApplyUpTo(r, target) == r
  {
  }

  class MemReplica {
    const pageSize: nat
    var journal: R.Journal
    var index: R.Image
    var commit: Lsn
    var lastAppend: Lsn
    var term: nat
    var token: nat

    ghost function View(): R.Rep
      reads this
    {
      R.Rep(pageSize, journal, index, commit, lastAppend, term, token)
    }

    /** The committed prefix is present and the index is its replay. */
    ghost predicate Valid()
      reads this
    {
      R.RepInv(View())
    }

    constructor (ps: nat)
      requires ps > 0
      ensures Valid() && View() == R.Rep(ps, map[], map[], -1, -1, 0, 0)
    {
      pageSize, journal, index, commit, lastAppend, term, token := ps, map[], map[], -1, -1, 0, 0;
    }

    /** Map the blocks of a data slot, unmap those of a zero write. */
    method ApplySlot(s: R.Slot)
      requires s.WriteSlot? && R.SlotOk(pageSize, s)
      modifies this`index
      ensures index == R.Paint(old(index), s)
    {
      if s.body.Zeros? {
        for i := 0 to s.len
          invariant forall x: nat ::
            R.At(index, x) == if s.lba <= x < s.lba + i then None else R.At(old(index), x)
        {
          var m := index - {s.lba + i};
          assert forall x: nat :: R.At(m, x) == if x == s.lba + i then None else R.At(index, x);
          index := m;
        }
      } else {
        for i := 0 to s.len
          invariant forall x: nat ::
            R.At(index, x) == if s.lba <= x < s.lba + i then R.PageAt(s, x) else R.At(old(index), x)
        {
          index := index[s.lba + i := s.body.pages[i]];
        }
      }
      R.ImageExt(index, R.Paint(old(index), s));
    }

    /** Advance the committed prefix towards `target`, stalling at the first Missing dLSN. */
    method ApplyUpTo(target: Lsn)
      requires R.JournalOk(pageSize, journal)
      modifies this`index, this`commit
      ensures View() == R.ApplyUpTo(old(View()), target)
      ensures old(Valid()) ==> Valid()
    {
      hide R.RepInv, R.Paint, R.ApplyUpTo;
      if old(Valid()) { R.ApplyKeepsInv(View(), target); }
      var next := commit + 1;
      while next <= target
        invariant next == commit + 1
        invariant R.ApplyUpTo(View(), target) == R.ApplyUpTo(old(View()), target)
        decreases target - next + 1
      {
        if next !in journal { break; }
        ApplyNext(View(), target);
        if journal[next].WriteSlot? { ApplySlot(journal[next]); }
        commit := next;
        next := next + 1;
      }
      ApplyEnd(View(), target);
    }

    /**
     * A write leg: refused when malformed, out of term or at a tombstone, in that order;
     * otherwise journalled, with the piggybacked commit applied and the watermarks returned.
     */
    method DoWrite(hdr: R.Hdr, d: Lsn, addr: nat, len: nat, data: Option<seq<u8>>)
      returns (result: Result<LsnPair, CraftError>)
      requires pageSize > 0 && R.JournalOk(pageSize, journal)
      modifies this
      ensures (View(), result) == R.DoWrite(old(View()), hdr, d, addr, len, data)
      ensures var bad := addr % pageSize != 0 || len % pageSize != 0 || len == 0 || (data.Some? && |data.value| != len);
        var void := d in old(journal) && old(journal)[d].EmptySlot?;
        && (result == Err(InvalidArgument) <==> bad || (hdr.term == old(term) && void))
        && (result == Err(StaleTerm) <==> !bad && hdr.term != old(term))
        && (result.Ok? <==> !bad && hdr.term == old(term) && !void)
      ensures result.Err? ==> View() == old(View())
      ensures result.Ok? ==> result.value.commitLsn == commit && result.value.lastAppendLsn == lastAppend
      ensures result.Ok? ==> d in journal && journal == old(journal)[d := journal[d]]
      ensures result.Ok? ==> lastAppend == Max(old(lastAppend), d)
      ensures result.Ok? ==> old(commit) <= commit <= Max(old(commit), hdr.commit)
      ensures result.Ok? && commit < hdr.commit ==> commit + 1 !in journal
      ensures term == old(term) && token == old(token)
    {
      hide R.SlotOf, R.ApplyUpTo;
      if addr % pageSize != 0 || len % pageSize != 0 || len == 0 { return Err(InvalidArgument); }
      if data.Some? && |data.value| != len { return Err(InvalidArgument); }
      if hdr.term != term { return Err(StaleTerm); }
      if d in journal && journal[d].EmptySlot? { return Err(InvalidArgument); }
      journal := journal[d := R.SlotOf(pageSize, addr, len, data)];
      lastAppend := Max(lastAppend, d);
      ApplyUpTo(hdr.commit);
      return Ok(LsnPair(commit, lastAppend));
    }

    /** A keep_alive: refused out of term, else the piggybacked commit is applied and the watermarks returned. */
    method DoKeepAlive(hdr: R.Hdr) returns (result: Result<LsnPair, CraftError>)
      requires R.JournalOk(pageSize, journal)
      modifies this
      ensures (View(), result) == R.DoKeepAlive(old(View()), hdr)
      ensures if hdr.term != old(term) then result == Err(StaleTerm) else result.Ok?
      ensures result.Err? ==> View() == old(View())
      ensures result.Ok? ==> result.value.commitLsn == commit && result.value.lastAppendLsn == lastAppend
      ensures journal == old(journal) && lastAppend == old(lastAppend) && term == old(term) && token == old(token)
      ensures result.Ok? ==> old(commit) <= commit <= Max(old(commit), hdr.commit)
      ensures result.Ok? && commit < hdr.commit ==> commit + 1 !in journal
    {
      if hdr.term != term { return Err(StaleTerm); }
      ApplyUpTo(hdr.commit);
      return Ok(LsnPair(commit, lastAppend));
    }

    // ------------------------------------------------------------ the journal tail and the index

    /** The highest journal-tail slot in (commit, h] that covers block `x`. */
    method HighestSlotLe(x: nat, h: Lsn) returns (d: Option<Lsn>)
      ensures var t := R.Top(journal, commit, h, x); d == if t > commit then Some(t) else None
    {
      var k := h;
      while k > commit
        invariant R.Top(journal, commit, k, x) == R.Top(journal, commit, h, x)
      {
        if k in journal && R.Covers(journal[k], x) { return Some(k); }
        k := k - 1;
      }
      return None;
    }

    /** The page a read at `h` shows for block `x`. */
    method ShowBlock(x: nat, h: Lsn) returns (c: R.Content)
      requires R.JournalOk(pageSize, journal)
      ensures c == Thin(R.ReadBlock(View(), h, x))
    {
      var d := HighestSlotLe(x, h);
      c := None;
      if d.Some? {
        var s := journal[d.value];
        assert R.SlotOk(pageSize, s);
        if s.body.Pages? { c := Some(s.body.pages[x - s.lba]); }
      } else if x in index {
        c := Some(index[x]);
      }
      if c.Some? && AllZero(c.value) { c := None; }
    }

    /** Put block `x` at offset `off` of the destination and into the layout. */
    method PutBlock(h: Lsn, x: nat, dest: array<u8>, off: nat, layout: seq<Extent>) returns (out: seq<Extent>)
      requires R.JournalOk(pageSize, journal) && off + pageSize <= dest.Length
      requires var c := Thin(R.ReadBlock(View(), h, x)); c.Some? ==> |c.value| == pageSize
      modifies dest
      ensures var c := Thin(R.ReadBlock(View(), h, x));
        && dest[..off + pageSize] == old(dest[..off]) + PageBytes(c, pageSize)
        && (forall k :: off + pageSize <= k < dest.Length ==> dest[k] == old(dest[k]))
        && out == Added(layout, x * pageSize, pageSize, c.None?)
    {
      var c := ShowBlock(x, h);
      WritePage(dest, off, c, pageSize);
      assert dest[..off + pageSize] == dest[..off] + dest[off..off + pageSize];
      out := AddBlock(layout, x * pageSize, pageSize, c.None?);
    }

    /** The blocks `cs` of a read one after the other. */
    method FillBlocks(h: Lsn, addr: nat, nblk: nat, dest: array<u8>, ghost cs: seq<R.Content>)
      returns (layout: seq<Extent>)
      requires pageSize > 0 && R.JournalOk(pageSize, journal) && addr % pageSize == 0
      requires |cs| == nblk && forall i :: 0 <= i < nblk ==> cs[i] == Thin(R.ReadBlock(View(), h, addr / pageSize + i))
      requires PagesOk(cs, pageSize) && Offset(pageSize, nblk) <= dest.Length
      modifies dest
      ensures layout == if nblk == 0 then [] else LayoutOf(cs, addr, pageSize)
      ensures dest[..Offset(pageSize, nblk)] == BytesOf(cs, pageSize)
      ensures forall k :: Offset(pageSize, nblk) <= k < dest.Length ==> dest[k] == old(dest[k])
    {
      hide *;
      layout := [];
      var i, off := 0, 0;
      NoBytes(cs, pageSize);
      NoOffset(pageSize);
      while i < nblk
        invariant 0 <= i <= nblk && off == Offset(pageSize, i) && off <= Offset(pageSize, nblk)
        invariant layout == if i == 0 then [] else LayoutOf(cs[..i], addr, pageSize)
        invariant dest[..off] == BytesOf(cs[..i], pageSize)
        invariant forall k :: Offset(pageSize, nblk) <= k < dest.Length ==> dest[k] == old(dest[k])
      {
        PageSized(cs, pageSize, i);
        NextOffset(pageSize, i, nblk);
        BytesStep(cs, pageSize, i);
        LayoutStep(cs, addr, pageSize, i);
        BlockAddr(addr, pageSize, i);
        layout := PutBlock(h, addr / pageSize + i, dest, off, layout);
        i, off := i + 1, off + pageSize;
      }
      assert cs[..nblk] == cs;
    }

    /** Fill `dest` with the bytes of [addr, addr + len) at horizon `h` and describe its data and holes. */
    method ReadRange(h: Lsn, addr: nat, len: nat, dest: array<u8>) returns (layout: seq<Extent>)
      requires Valid() && R.Aligned(pageSize, addr, len) && len <= dest.Length
      modifies dest
      ensures var cs := RangeShown(View(), h, addr, len);
        && |cs| > 0 && layout == LayoutOf(cs, addr, pageSize) && dest[..len] == BytesOf(cs, pageSize)
      ensures forall k :: len <= k < dest.Length ==> dest[k] == old(dest[k])
    {
      ShownPagesOk(View(), h, addr / pageSize, len / pageSize);
      Blocks(addr, len, pageSize);
      layout := FillBlocks(h, addr, len / pageSize, dest, BlocksShown(View(), h, addr / pageSize, len / pageSize));
    }

    /** A read: apply the piggybacked commit, then serve. The destination is untouched on an error. */
    method DoRead(hdr: R.Hdr, h: Lsn, addr: nat, len: nat, dest: array<u8>)
      returns (result: Result<(seq<Extent>, LsnPair), CraftError>)
      requires Valid()
      modifies this, dest
      ensures Valid() && (result.Err? ==> View() == old(View()) && dest[..] == old(dest[..]))
      ensures result == Err(InvalidArgument) <==> !R.Aligned(pageSize, addr, len) || dest.Length < len
      ensures result.Err? && result != Err(InvalidArgument) ==> result == Err(StaleTerm) && hdr.term != term
      ensures result.Ok? ==> (View(), Ok(result.value.1)) == R.DoKeepAlive(old(View()), hdr) && hdr.term == old(term)
      ensures result.Ok? ==> result.value.1.commitLsn == commit && result.value.1.lastAppendLsn == lastAppend
      ensures result.Ok? ==> var cs := RangeShown(View(), h, addr, len);
        |cs| > 0 && result.value.0 == LayoutOf(cs, addr, pageSize) && dest[..len] == BytesOf(cs, pageSize)
      ensures result.Ok? ==> dest[..len] == ReplayedBytes(pageSize, journal, Max(h, commit), addr, len)
      ensures result.Ok? ==> LayoutTells(result.value.0, dest[..len], addr, pageSize, len / pageSize)
    {
      if addr % pageSize != 0 || len % pageSize != 0 || len == 0 { return Err(InvalidArgument); }
      if dest.Length < len { return Err(InvalidArgument); }
      if hdr.term != term { return Err(StaleTerm); }
      ApplyUpTo(hdr.commit);
      RangeIsTold(View(), h, addr, len);
      hide LayoutTells, ReplayedBytes, BytesOf, LayoutOf;
      var layout := ReadRange(h, addr, len, dest);
      return Ok((layout, LsnPair(commit, lastAppend)));
    }

    // ------------------------------------------------------------ cold-path hooks

    method MarkEmpty(d: Lsn)
      modifies this
      ensures View() == R.MarkEmpty(old(View()), d)
      ensures journal == old(journal)[d := R.EmptySlot] && lastAppend == Max(old(lastAppend), d)
      ensures index == old(index) && commit == old(commit) && term == old(term) && token == old(token)
    {
      journal := journal[d := R.EmptySlot];
      lastAppend := Max(lastAppend, d);
    }

    method InstallSlot(d: Lsn, s: R.Slot)
      modifies this
      ensures View() == R.InstallSlot(old(View()), d, s)
      ensures if d in old(journal) then View() == old(View())
        else journal == old(journal)[d := s] && lastAppend == Max(old(lastAppend), d)
      ensures index == old(index) && commit == old(commit) && term == old(term) && token == old(token)
    {
      if d in journal { return; }
      journal := journal[d := s];
      lastAppend := Max(lastAppend, d);
    }

    method ApplyLogin(newToken: nat, newTerm: nat)
      modifies this
      ensures View() == R.ApplyLogin(old(View()), newToken, newTerm)
      ensures View() == old(View()).(token := newToken, term := newTerm)
    {
      token, term := newToken, newTerm;
    }

    method ApplyLogout()
      modifies this
      ensures View() == R.ApplyLogout(old(View()))
      ensures View() == old(View()).(token := 0, term := 0)
    {
      token, term := 0, 0;
    }

    method TruncateAbove(rs: Lsn)
      modifies this
      ensures View() == R.TruncateAbove(old(View()), rs)
      ensures forall d :: d in journal <==> d in old(journal) && d <= rs
      ensures forall d :: d in journal ==> journal[d] == old(journal)[d]
      ensures View() == old(View()).(journal := journal, lastAppend := Min(old(lastAppend), rs))
    {
      journal := map d | d in journal && d <= rs :: journal[d];
      lastAppend := Min(lastAppend, rs);
    }

    method PeekSlot(d: Lsn) returns (s: Option<R.Slot>)
      ensures s == if d in journal then Some(journal[d]) else None
    {
      if d !in journal { return None; }
      return Some(journal[d]);
    }

    /** Every tombstone up to `upto`, ascending. */
    method PeekEmpties(upto: Lsn) returns (out: seq<Lsn>)
      ensures forall d :: d in out <==> d <= upto && R.IsEmptyAt(View(), d)
      ensures Ascending(out)
    {
      out := [];
      var rest := journal.Keys;
      while rest != {}
        invariant rest <= journal.Keys && Ascending(out)
        invariant forall d :: d in out <==> d <= upto && R.IsEmptyAt(View(), d) && d !in rest
        invariant forall d, e :: d in out && e in rest ==> d < e
        invariant forall d, e :: d in journal && d !in rest && e in rest ==> d < e
      {
        ghost var least := Least(rest);
        var d :| d in rest && IsLeast(rest, d);
        assert IsLeast(rest, d);
        if d > upto { break; }
        assert forall a :: 0 <= a < |out| ==> out[a] in out;
        assert forall e :: e in out + [d] <==> e in out || e == d;
        if journal[d].EmptySlot? { out := out + [d]; }
        rest := rest - {d};
      }
    }

    /**
     * The round of a replica that is the whole set: every missing dLSN up to `upto` becomes
     * Empty, and all tombstones above the old committed prefix are reported.
     */
    method ResolveLocal(hdr: R.Hdr, upto: Lsn) returns (result: Result<seq<Lsn>, CraftError>)
      requires Valid()
      modifies this
      ensures hdr.term != old(term) <==> result == Err(StaleTerm)
      ensures result.Err? ==> View() == old(View())
      ensures result.Ok? ==> View() == ResolvedLocally(old(View()), upto) && Valid()
      ensures result.Ok? ==> result.value == EmptiesIn(journal, old(commit) + 1, upto)
      ensures result.Ok? ==> SettledAlone(old(View()), View(), upto)
      ensures result.Ok? ==> Ascending(result.value) && forall d :: d in result.value <==>
        old(commit) < d <= upto && d in journal && journal[d].EmptySlot?
    {
      hide Ascending, SettledAlone;
      if hdr.term != term { return Err(StaleTerm); }
      SettlesAlone(View(), upto);
      var empties: seq<Lsn> := [];
      var d := commit + 1;
      ghost var start := View();
      NoEmpties(journal, d);
      hide FilledIn, EmptiesIn, R.RepInv;
      while d <= upto
        invariant start.commit + 1 <= d && (d <= upto + 1 || d == start.commit + 1)
        invariant View() == start.(journal := FilledIn(start.journal, start.commit + 1, d - 1))
        invariant empties == EmptiesIn(journal, start.commit + 1, d - 1)
        decreases upto - d + 1
      {
        FillNext(start.journal, start.commit + 1, d);
        if d !in journal {
          journal := journal[d := R.EmptySlot];
          empties := empties + [d];
        } else if journal[d].EmptySlot? {
          empties := empties + [d];
        }
        d := d + 1;
      }
      NothingToFill(start.journal, start.commit + 1, upto, d - 1);
      lastAppend := Max(lastAppend, upto);
      FilledOk(start, upto);
      JournalFine(View());
      ApplyUpTo(upto);
      EmptiesExact(journal, old(commit) + 1, upto);
      return Ok(empties);
    }
  }
}
