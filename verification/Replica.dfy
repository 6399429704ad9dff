/**
 * One replica: an out-of-order journal keyed by dLSN, an LBA index holding the
 * applied prefix, and a journal-tail overlay derived on demand.
 */
module Replica {
  import opened CraftTypes
  import Arith

  /** One block of data, `pageSize` bytes long. */
  type Page = seq<u8>

  /** What a block reads as: `None` is a hole. */
  type Content = Option<Page>

  /** The payload of a write; a zero write (WRITE_ZEROES) carries none. */
  datatype Body = Zeros | Pages(pages: seq<Page>)

  /** A journal slot: an Empty verdict, or a write of `len` blocks at block `lba`. */
  datatype Slot = EmptySlot | WriteSlot(lba: nat, len: nat, body: Body)

  type Journal = map<Lsn, Slot>
  type Image = map<nat, Page>

  ghost predicate SlotOk(pageSize: nat, s: Slot) {
    s.WriteSlot? && s.body.Pages? ==>
      |s.body.pages| == s.len && forall k :: 0 <= k < s.len ==> |s.body.pages[k]| == pageSize
  }

  ghost predicate JournalOk(pageSize: nat, j: Journal) {
    forall d :: d in j ==> SlotOk(pageSize, j[d])
  }

  predicate Covers(s: Slot, x: nat) {
    s.WriteSlot? && s.lba <= x < s.lba + s.len
  }

  function PageAt(s: Slot, x: nat): (c: Content)
    requires Covers(s, x)
    requires s.body.Pages? ==> |s.body.pages| == s.len
  {
    if s.body.Zeros? then None else Some(s.body.pages[x - s.lba])
  }

  /** The effect of applying one slot: data maps its blocks, a zero write unmaps them. */
  function Paint(img: Image, s: Slot): (r: Image)
    requires s.WriteSlot? && s.body.Pages? ==> |s.body.pages| == s.len
    ensures forall x: nat :: At(r, x) == if Covers(s, x) then PageAt(s, x) else At(img, x)
  {
    match s
    case EmptySlot => img
    case WriteSlot(lba, len, Zeros) => map x | x in img && !(lba <= x < lba + len) :: img[x]
    case WriteSlot(lba, len, Pages(pages)) => img + map x | x in Span(lba, len) :: pages[x - lba]
  }

  function At(img: Image, x: nat): (c: Content) {
    if x in img then Some(img[x]) else None
  }

  lemma ImageExt(a: Image, b: Image)
    requires forall x: nat :: At(a, x) == At(b, x)
    ensures a == b
  {
    forall x | x in a ensures x in b && a[x] == b[x] { assert At(a, x) == At(b, x); }
    forall x | x in b ensures x in a { assert At(a, x) == At(b, x); }
  }

  // ---------------------------------------------------------------- naive replay

  /** The reference reading of a journal: paint every slot in [0, h] in dLSN order. */
  ghost function Replay(pageSize: nat, j: Journal, h: Lsn): (img: Image)
    requires JournalOk(pageSize, j)
    decreases h + 1
  {
    if h < 0 then map[]
    else if h in j then Paint(Replay(pageSize, j, h - 1), j[h])
    else Replay(pageSize, j, h - 1)
  }

  ghost predicate SameUpTo(a: Journal, b: Journal, h: Lsn) {
    forall d :: 0 <= d <= h ==> (d in a <==> d in b) && (d in a ==> a[d] == b[d])
  }

  lemma {:induction false} ReplayDependsOnPrefix(pageSize: nat, a: Journal, b: Journal, h: Lsn)
    requires JournalOk(pageSize, a) && JournalOk(pageSize, b)
    requires SameUpTo(a, b, h)
    ensures Replay(pageSize, a, h) == Replay(pageSize, b, h)
    decreases h + 1
  {
    if h >= 0 {
      assert SameUpTo(a, b, h - 1);
      ReplayDependsOnPrefix(pageSize, a, b, h - 1);
    }
  }

  /** The highest dLSN in (lo, h] whose slot writes block `x`, or `lo` when there is none. */
  function Top(j: Journal, lo: Lsn, h: Lsn, x: nat): (t: Lsn)
    ensures lo <= t
    ensures t > lo ==> t <= h && t in j && Covers(j[t], x)
    ensures forall d :: t < d <= h && d in j ==> !Covers(j[d], x)
    decreases h - lo
  {
    if h <= lo then lo
    else if h in j && Covers(j[h], x) then h
    else Top(j, lo, h - 1, x)
  }

  /** Replaying up to `h` shows, block by block, the topmost slot above `lo` or else the image at `lo`. */
  lemma {:induction false} ReplayIsTop(pageSize: nat, j: Journal, lo: Lsn, h: Lsn, x: nat)
    requires JournalOk(pageSize, j)
    requires -1 <= lo <= h
    ensures At(Replay(pageSize, j, h), x) ==
            var t := Top(j, lo, h, x);
            if t > lo then PageAt(j[t], x) else At(Replay(pageSize, j, lo), x)
    decreases h - lo
  {
    if h > lo {
      ReplayIsTop(pageSize, j, lo, h - 1, x);
    }
  }

  // ---------------------------------------------------------------- replica state

  datatype Rep = Rep(
    pageSize: nat,
    journal: Journal,
    index: Image,
    commit: Lsn,
    lastAppend: Lsn,
    term: nat,
    token: nat)

  /** Every dLSN up to the committed one is present. */
  ghost predicate PrefixPresent(r: Rep) {
    -1 <= r.commit && forall d :: 0 <= d <= r.commit ==> d in r.journal
  }

  /** The committed prefix is present and the index is exactly its replay. */
  ghost predicate RepInv(r: Rep) {
    && r.pageSize > 0
    && JournalOk(r.pageSize, r.journal)
    && PrefixPresent(r)
    && r.index == Replay(r.pageSize, r.journal, r.commit)
  }

  /** apply_up_to: advance the committed prefix towards `target`, stalling at the first Missing dLSN. */
  function ApplyUpTo(r: Rep, target: Lsn): (r': Rep)
    requires JournalOk(r.pageSize, r.journal)
    ensures r' == r.(commit := r'.commit, index := r'.index)
    ensures r.commit <= r'.commit <= Max(r.commit, target)
    ensures forall d :: r.commit < d <= r'.commit ==> d in r.journal
    ensures r'.commit < target ==> r'.commit + 1 !in r.journal
    decreases target - r.commit
  {
    var next := r.commit + 1;
    if next <= target && next in r.journal
    then ApplyUpTo(r.(commit := next, index := Paint(r.index, r.journal[next])), target)
    else r
  }

  lemma {:induction false} ApplyKeepsInv(r: Rep, target: Lsn)
    requires RepInv(r)
    ensures RepInv(ApplyUpTo(r, target))
    decreases target - r.commit
  {
    var next := r.commit + 1;
    if next <= target && next in r.journal {
      ApplyKeepsInv(r.(commit := next, index := Paint(r.index, r.journal[next])), target);
    }
  }

  /** What a read at horizon `h` shows for block `x`: the journal tail first, then the index. */
  function ReadBlock(r: Rep, h: Lsn, x: nat): (c: Content)
    requires JournalOk(r.pageSize, r.journal)
  {
    var t := Top(r.journal, r.commit, h, x);
    if t > r.commit then PageAt(r.journal[t], x) else At(r.index, x)
  }

  /**
   * Overlay plus index equals naive replay, for every horizon: below the committed
   * prefix the clamp cannot bite any more and the whole prefix is served.
   */
  lemma ReadRefinesReplay(r: Rep, h: Lsn, x: nat)
    requires RepInv(r)
    ensures ReadBlock(r, h, x) == At(Replay(r.pageSize, r.journal, Max(h, r.commit)), x)
  {
    ReplayIsTop(r.pageSize, r.journal, r.commit, Max(h, r.commit), x);
  }

  // ---------------------------------------------------------------- the write path

  /** The fields of the client header a replica acts on. */
  datatype Hdr = Hdr(term: nat, commit: Lsn)

  /** A payload cut into pages. */
  function Chop(pageSize: nat, data: seq<u8>): (pages: seq<Page>)
    requires pageSize > 0
    ensures |pages| == |data| / pageSize
    ensures forall k :: 0 <= k < |pages| ==> |pages[k]| == pageSize
  {
    if |data| < pageSize then [] else
    Arith.DivStep(|data| - pageSize, pageSize);
    [data[..pageSize]] + Chop(pageSize, data[pageSize..])
  }

  predicate Aligned(pageSize: nat, addr: nat, len: nat)
    requires pageSize > 0
  {
    addr % pageSize == 0 && len % pageSize == 0 && len != 0
  }

  /** The slot a byte-addressed write becomes; no payload means a zero write. */
  function SlotOf(pageSize: nat, addr: nat, len: nat, data: Option<seq<u8>>): (s: Slot)
    requires pageSize > 0
    requires data.Some? ==> |data.value| == len
    ensures SlotOk(pageSize, s)
  {
    WriteSlot(addr / pageSize, len / pageSize, if data.None? then Zeros else Pages(Chop(pageSize, data.value)))
  }

  function Lsns(r: Rep): LsnPair {
    LsnPair(r.commit, r.lastAppend)
  }

  function Append(r: Rep, d: Lsn, s: Slot): (r': Rep) {
    r.(journal := r.journal[d := s], lastAppend := Max(r.lastAppend, d))
  }

  function DoWrite(r: Rep, hdr: Hdr, d: Lsn, addr: nat, len: nat, data: Option<seq<u8>>)
    : (out: (Rep, Result<LsnPair, CraftError>))
    requires r.pageSize > 0 && JournalOk(r.pageSize, r.journal)
  {
    if !Aligned(r.pageSize, addr, len) then (r, Err(InvalidArgument))
    else if data.Some? && |data.value| != len then (r, Err(InvalidArgument))
    else if hdr.term != r.term then (r, Err(StaleTerm))
    else if d in r.journal && r.journal[d].EmptySlot? then (r, Err(InvalidArgument))
    else
      var r' := ApplyUpTo(Append(r, d, SlotOf(r.pageSize, addr, len, data)), hdr.commit);
      (r', Ok(Lsns(r')))
  }

  function DoKeepAlive(r: Rep, hdr: Hdr): (out: (Rep, Result<LsnPair, CraftError>))
    requires JournalOk(r.pageSize, r.journal)
  {
    if hdr.term != r.term then (r, Err(StaleTerm))
    else var r' := ApplyUpTo(r, hdr.commit); (r', Ok(Lsns(r')))
  }

  /** Appending keeps the index exact unless it rewrites an already applied dLSN with something else. */
  lemma AppendKeepsInv(r: Rep, d: Lsn, s: Slot)
    requires RepInv(r) && SlotOk(r.pageSize, s)
    requires 0 <= d <= r.commit ==> r.journal[d] == s
    ensures RepInv(Append(r, d, s))
  {
    ReplayDependsOnPrefix(r.pageSize, r.journal, r.journal[d := s], r.commit);
  }

  lemma WriteKeepsInv(r: Rep, hdr: Hdr, d: Lsn, addr: nat, len: nat, data: Option<seq<u8>>)
    requires RepInv(r)
    requires data.Some? ==> |data.value| == len
    requires 0 <= d <= r.commit ==> r.journal[d] in {EmptySlot, SlotOf(r.pageSize, addr, len, data)}
    ensures RepInv(DoWrite(r, hdr, d, addr, len, data).0)
  {
    var (r', result) := DoWrite(r, hdr, d, addr, len, data);
    if result.Ok? {
      var s := SlotOf(r.pageSize, addr, len, data);
      AppendKeepsInv(r, d, s);
      ApplyKeepsInv(Append(r, d, s), hdr.commit);
    }
  }

  // ---------------------------------------------------------------- cold-path hooks

  /** cold_mark_empty: an Empty verdict replaces whatever the slot held. */
  function MarkEmpty(r: Rep, d: Lsn): (r': Rep) {
    Append(r, d, EmptySlot)
  }

  /** cold_install_slot: a fetched copy never overwrites an entry. */
  function InstallSlot(r: Rep, d: Lsn, s: Slot): (r': Rep) {
    if d in r.journal then r else Append(r, d, s)
  }

  function ApplyLogin(r: Rep, token: nat, term: nat): (r': Rep) {
    r.(token := token, term := term)
  }

  function ApplyLogout(r: Rep): (r': Rep) {
    r.(token := 0, term := 0)
  }

  function TruncateAbove(r: Rep, rs: Lsn): (r': Rep) {
    r.(journal := map d | d in r.journal && d <= rs :: r.journal[d], lastAppend := Min(r.lastAppend, rs))
  }

  predicate IsEmptyAt(r: Rep, d: Lsn) {
    d in r.journal && r.journal[d].EmptySlot?
  }

  predicate HoldsAt(r: Rep, d: Lsn) {
    d in r.journal && r.journal[d].WriteSlot?
  }

  // ---------------------------------------------------------------- what a read depends on

  /** A request as it reaches one replica: a write leg, or an IO that only piggybacks the commit frontier. */
  datatype Request =
    | WriteReq(hdr: Hdr, d: Lsn, addr: nat, len: nat, data: Option<seq<u8>>)
    | PingReq(hdr: Hdr)

  function Serve(r: Rep, q: Request): (r': Rep)
    requires r.pageSize > 0 && JournalOk(r.pageSize, r.journal)
    ensures r'.pageSize == r.pageSize && JournalOk(r'.pageSize, r'.journal) && r'.term == r.term
  {
    match q
    case WriteReq(hdr, d, addr, len, data) => DoWrite(r, hdr, d, addr, len, data).0
    case PingReq(hdr) => DoKeepAlive(r, hdr).0
  }

  function ServeAll(r: Rep, qs: seq<Request>): (r': Rep)
    requires r.pageSize > 0 && JournalOk(r.pageSize, r.journal)
    ensures r'.pageSize == r.pageSize && JournalOk(r'.pageSize, r'.journal) && r'.term == r.term
  {
    if qs == [] then r else Serve(ServeAll(r, qs[..|qs| - 1]), qs[|qs| - 1])
  }

  /** A request the session may send: aligned, in term, and the one payload its dLSN carries. */
  predicate InSession(r: Rep, writes: map<Lsn, Slot>, q: Request)
    requires r.pageSize > 0
  {
    q.WriteReq? ==>
      && q.hdr.term == r.term
      && Aligned(r.pageSize, q.addr, q.len)
      && (q.data.Some? ==> |q.data.value| == q.len)
      && q.d in writes && writes[q.d] == SlotOf(r.pageSize, q.addr, q.len, q.data)
  }

  ghost predicate Delivered(qs: seq<Request>, d: Lsn) {
    exists k :: 0 <= k < |qs| && qs[k].WriteReq? && qs[k].d == d
  }

  /** One in-session request: a write lands unless a tombstone is in the way, everything else leaves the journal. */
  lemma ServeInSession(r: Rep, m: Rep, writes: map<Lsn, Slot>, q: Request)
    requires RepInv(m) && r.pageSize == m.pageSize && r.term == m.term && InSession(r, writes, q)
    requires q.WriteReq? && q.d in m.journal ==> m.journal[q.d] in {EmptySlot, writes[q.d]}
    ensures RepInv(Serve(m, q))
    ensures Serve(m, q).journal ==
      if q.WriteReq? && !IsEmptyAt(m, q.d) then m.journal[q.d := writes[q.d]] else m.journal
  {
    match q
    case WriteReq(hdr, d, addr, len, data) => WriteKeepsInv(m, hdr, d, addr, len, data);
    case PingReq(hdr) => ApplyKeepsInv(m, hdr.commit);
  }

  lemma DeliveredLast(qs: seq<Request>, d: Lsn)
    requires qs != []
    ensures var q := qs[|qs| - 1];
      Delivered(qs, d) <==> Delivered(qs[..|qs| - 1], d) || (q.WriteReq? && q.d == d)
  {
    var init, q := qs[..|qs| - 1], qs[|qs| - 1];
    if Delivered(init, d) {
      var k :| 0 <= k < |init| && init[k].WriteReq? && init[k].d == d;
      assert qs[k] == init[k];
    }
    if Delivered(qs, d) && !(q.WriteReq? && q.d == d) {
      var k :| 0 <= k < |qs| && qs[k].WriteReq? && qs[k].d == d;
      assert qs[k] == init[k];
    }
  }

  /** The journal after a run: what was there, plus one copy of every dLSN delivered outside a tombstone. */
  lemma {:induction false} JournalAfterRun(r: Rep, writes: map<Lsn, Slot>, qs: seq<Request>)
    requires RepInv(r)
    requires forall k :: 0 <= k < |qs| ==> InSession(r, writes, qs[k])
    requires forall d :: d in r.journal && d in writes ==> r.journal[d] in {EmptySlot, writes[d]}
    ensures RepInv(ServeAll(r, qs))
    ensures forall d :: d in ServeAll(r, qs).journal <==> d in r.journal || Delivered(qs, d)
    ensures forall d :: d in r.journal ==> ServeAll(r, qs).journal[d] == r.journal[d]
    ensures forall d :: d !in r.journal && Delivered(qs, d) ==> d in writes && ServeAll(r, qs).journal[d] == writes[d]
  {
    if qs != [] {
      var init, q := qs[..|qs| - 1], qs[|qs| - 1];
      JournalAfterRun(r, writes, init);
      assert InSession(r, writes, q);
      ServeInSession(r, ServeAll(r, init), writes, q);
      forall d ensures Delivered(qs, d) <==> Delivered(init, d) || (q.WriteReq? && q.d == d) { DeliveredLast(qs, d); }
      hide RepInv, Serve, Delivered;
    }
  }

  /**
   * Arrival order, duplicates and commit timing never change what is read: two
   * runs from the same replica that delivered the same dLSNs read the same block
   * at every horizon not below either committed prefix, and equal committed
   * prefixes mean equal indexes.
   */
  lemma ReadDependsOnDeliveredSet(r: Rep, writes: map<Lsn, Slot>, a: seq<Request>, b: seq<Request>, h: Lsn, x: nat)
    requires RepInv(r)
    requires forall k :: 0 <= k < |a| ==> InSession(r, writes, a[k])
    requires forall k :: 0 <= k < |b| ==> InSession(r, writes, b[k])
    requires forall d :: d in r.journal && d in writes ==> r.journal[d] in {EmptySlot, writes[d]}
    requires forall d :: Delivered(a, d) <==> Delivered(b, d)
    requires h >= ServeAll(r, a).commit && h >= ServeAll(r, b).commit
    ensures ReadBlock(ServeAll(r, a), h, x) == ReadBlock(ServeAll(r, b), h, x)
    ensures ServeAll(r, a).commit == ServeAll(r, b).commit ==> ServeAll(r, a).index == ServeAll(r, b).index
  {
    JournalAfterRun(r, writes, a);
    JournalAfterRun(r, writes, b);
    var ra, rb := ServeAll(r, a), ServeAll(r, b);
    ReadRefinesReplay(ra, h, x);
    ReadRefinesReplay(rb, h, x);
    ReplayDependsOnPrefix(r.pageSize, ra.journal, rb.journal, h);
    ReplayDependsOnPrefix(r.pageSize, ra.journal, rb.journal, ra.commit);
  }
}
