/** A remote read over the byte stream: the reply is framed, cut into chunks, reassembled and scattered. */
module StreamRead {
  import opened CraftTypes
  import Arith
  import Crc32c
  import opened Replica
  import opened ReadLayout
  import opened Wire
  import opened Conn
  import opened SparseReply
  import opened Scatter
  import opened MemReplicas
  import opened ReplyRoundTrip

  // ---------------------------------------------------------------- the status byte

  /** to_wire_status(), with 0 for ok. */
  function StatusOf(e: Option<CraftError>): u8 {
    if e.None? then 0 else if e.value.StaleTerm? then 1 else if e.value.NotLeader? then 2
    else if e.value.NoQuorum? then 3 else if e.value.NotEligible? then 5 else if e.value.ReplicaDown? then 6
    else if e.value.InvalidArgument? then 7 else 255
  }

  /** status_to_error(): what it does not know reads as a member that is down. */
  function ErrorOf(s: u8): CraftError {
    if s == 1 then StaleTerm else if s == 2 then NotLeader else if s == 3 then NoQuorum
    else if s == 5 then NotEligible else if s == 7 then CraftError.InvalidArgument else ReplicaDown
  }

  /** The codes of the wire format. */
  lemma StatusCodes()
    ensures StatusOf(None) == 0 && StatusOf(Some(StaleTerm)) == 1 && StatusOf(Some(NotLeader)) == 2
    ensures StatusOf(Some(NoQuorum)) == 3 && StatusOf(Some(NotEligible)) == 5 && StatusOf(Some(ReplicaDown)) == 6
    ensures StatusOf(Some(CraftError.InvalidArgument)) == 7
    ensures forall s :: s !in {1, 2, 3, 5, 7} ==> ErrorOf(s) == ReplicaDown
  {
  }

  /** Every error but a timeout comes back as itself. */
  lemma StatusBack(e: CraftError)
    ensures StatusOf(Some(e)) != 0 && (ErrorOf(StatusOf(Some(e))) == e <==> e != CraftError.TimedOut)
  {
  }

  // ---------------------------------------------------------------- the op header of a read reply

  const TWO_63 := 0x8000_0000_0000_0000

  predicate IsI64(n: int) {
    -TWO_63 <= n < TWO_63
  }

  /** A signed 64-bit number in two's complement. */
  function PutI64(n: int): (s: seq<u8>)
    ensures |s| == 8
  {
    PutU64(n % TWO_64)
  }

  function GetI64(s: seq<u8>): (n: int)
    requires |s| == 8
  {
    var u := GetU64(s);
    if u >= TWO_63 then u - TWO_64 else u
  }

  lemma I64Back(n: int)
    requires IsI64(n)
    ensures GetI64(PutI64(n)) == n
  {
    hide PutU64, GetU64;
    U64Back(n % TWO_64);
    Arith.ModOnce(n, TWO_64);
  }

  /** read_rsp: the piggybacked watermarks and the number of extents in the body. */
  datatype ReadRsp = ReadRsp(lsns: LsnPair, count: nat)

  const RSP_SIZE := 24

  function PutRsp(r: ReadRsp): (s: seq<u8>)
    ensures |s| == RSP_SIZE
  {
    PutI64(r.lsns.commitLsn) + PutI64(r.lsns.lastAppendLsn) + PutU32(r.count) + PutU32(0)
  }

  function GetRsp(s: seq<u8>): (r: ReadRsp)
    requires |s| == RSP_SIZE
  {
    ReadRsp(LsnPair(GetI64(s[..8]), GetI64(s[8..16])), GetU32(s[16..20]))
  }

  /** Where the fields of a read reply's header are. */
  lemma RspLayout(r: ReadRsp)
    ensures var s := PutRsp(r);
      s[..8] == PutI64(r.lsns.commitLsn) && s[8..16] == PutI64(r.lsns.lastAppendLsn) && s[16..20] == PutU32(r.count)
  {
  }

  lemma RspBack(r: ReadRsp)
    requires r.count < TWO_32
    ensures GetRsp(PutRsp(r)).count == r.count
    ensures IsI64(r.lsns.commitLsn) && IsI64(r.lsns.lastAppendLsn) ==> GetRsp(PutRsp(r)) == r
  {
    hide PutI64, GetI64, PutU32, GetU32, IsI64;
    U32Back(r.count);
    var s := PutRsp(r);
    assert s[..8] == PutI64(r.lsns.commitLsn) && s[8..16] == PutI64(r.lsns.lastAppendLsn);
    assert s[16..20] == PutU32(r.count);
    if IsI64(r.lsns.commitLsn) { I64Back(r.lsns.commitLsn); }
    if IsI64(r.lsns.lastAppendLsn) { I64Back(r.lsns.lastAppendLsn); }
  }

  // ---------------------------------------------------------------- the network

  /** How much of `left` bytes the next chunk carries, when it would like to carry `want`. */
  function ChunkSize(left: nat, want: nat): (n: nat)
    requires left > 0
    ensures 0 < n <= left && n <= RECV_CHUNK
  {
    Min(left, Max(1, Min(want, RECV_CHUNK)))
  }

  /** The bytes cut into chunks of about the given sizes, and one by one once these are used up. */
  function Cut(bytes: seq<u8>, sizes: seq<nat>): (rs: seq<Recv>)
    decreases |bytes|
  {
    if bytes == [] then []
    else
      var n := ChunkSize(|bytes|, if sizes == [] then 1 else sizes[0]);
      [Chunk(bytes[..n])] + Cut(bytes[n..], if sizes == [] then [] else sizes[1..])
  }

  lemma {:induction false} CutIs(bytes: seq<u8>, sizes: seq<nat>)
    ensures AllChunks(Cut(bytes, sizes)) && Flat(Cut(bytes, sizes)) == bytes
    decreases |bytes|
  {
    if bytes != [] {
      var n := ChunkSize(|bytes|, if sizes == [] then 1 else sizes[0]);
      var rest := Cut(bytes[n..], if sizes == [] then [] else sizes[1..]);
      CutIs(bytes[n..], if sizes == [] then [] else sizes[1..]);
      assert Cut(bytes, sizes)[1..] == rest;
      assert bytes == bytes[..n] + bytes[n..];
    }
  }

  lemma CutOnce(b: seq<u8>, more: seq<u8>, sizes: seq<nat>)
    requires 0 < |b| <= RECV_CHUNK
    ensures Cut(b + more, [|b|] + sizes) == [Chunk(b)] + Cut(more, sizes)
  {
    assert (b + more)[..|b|] == b && (b + more)[|b|..] == more;
    assert ([|b|] + sizes)[1..] == sizes;
  }

  function Sizes(rs: seq<Recv>): seq<nat> {
    if rs == [] then [] else [if rs[0].Chunk? then |rs[0].bytes| else 0] + Sizes(rs[1..])
  }

  /** Every way the network may cut the bytes is one of these. */
  lemma {:induction false} EveryCut(rs: seq<Recv>)
    requires AllChunks(rs)
    ensures Cut(Flat(rs), Sizes(rs)) == rs
  {
    if rs != [] {
      var b, rest := rs[0].bytes, rs[1..];
      EveryCut(rest);
      CutOnce(b, Flat(rest), Sizes(rest));
      assert rs == [Chunk(b)] + rest;
    }
  }

  // ---------------------------------------------------------------- the server

  const READ_RSP: u8 := 8

  /** The reply message of a read. */
  function ReplyDraft(refused: Option<CraftError>, rid: nat, rsp: ReadRsp, body: seq<u8>): Draft {
    Draft(READ_RSP, StatusOf(refused), rid, PutRsp(rsp), body)
  }

  lemma ReplyLegal(refused: Option<CraftError>, rid: nat, rsp: ReadRsp, body: seq<u8>, maxTx: nat)
    requires rid < TWO_16 && |body| <= maxTx < TWO_32
    ensures Legal(ReplyDraft(refused, rid, rsp, body), maxTx)
  {
    hide PutRsp, StatusOf;
  }

  lemma CountSmall(body: seq<u8>, count: nat, addr: nat)
    requires StartsAt(body, count, addr) && |body| < TWO_32
    ensures count < TWO_32
  {
  }

  /** What the server sent is a legal reply to the read. */
  ghost predicate Replied(d: Draft, dg: Digests, out: seq<u8>, refused: Option<CraftError>, rid: nat, rsp: ReadRsp,
                          maxTx: nat) {
    && d == ReplyDraft(refused, rid, rsp, d.body) && out == Framed(d, dg) && Legal(d, maxTx) && rsp.count < TWO_32
  }

  /** The server's side: read, build the body, frame the reply. */
  method ServeRead(r: MemReplica, hdr: Hdr, h: Lsn, addr: nat, len: nat, rid: nat, dg: Digests, table: seq<bv32>,
                   ghost payload: nat, ghost maxTx: nat)
    returns (out: seq<u8>, ghost d: Draft, ghost refused: Option<CraftError>, ghost rsp: ReadRsp, ghost es: seq<Desc>)
    requires r.Valid() && addr < TWO_64 && len < TWO_64 && rid < TWO_16 && Crc32c.IsTable(table)
    requires Roomy(r.pageSize, len, payload) && FramedBodyMax(payload, r.pageSize) <= maxTx < TWO_32
    modifies r
    ensures r.Valid() && refused == Refusal(r.pageSize, old(r.term), hdr, addr, len)
    ensures r.View() == if refused.Some? then old(r.View()) else DoKeepAlive(old(r.View()), hdr).0
    ensures Replied(d, dg, out, refused, rid, rsp, maxTx) && rsp.lsns == LsnPair(r.commit, r.lastAppend)
    ensures refused.None? && addr + len < TWO_64 ==> Answers(r.View(), h, addr, len, d.body, rsp.count, es)
    ensures refused.None? ==> StartsAt(d.body, rsp.count, addr)
  {
    hide Roomy, FramedBodyMax, Answers, StartsAt, Refusal, DoKeepAlive, Framed, Legal, Crc32c.IsTable, StatusOf, PutRsp;
    var count, body, no;
    no, body, count, es := ServerReply(r, hdr, h, addr, len, payload);
    if no.None? { CountSmall(body, count, addr); }
    refused, rsp := no, ReadRsp(LsnPair(r.commit, r.lastAppend), count);
    var reply := ReplyDraft(no, rid, ReadRsp(LsnPair(r.commit, r.lastAppend), count), body);
    ReplyLegal(refused, rid, rsp, body, maxTx);
    out := FrameMessage([], reply, dg, table);
    d := reply;
  }

  // ---------------------------------------------------------------- the client

  datatype ReadReply = ReadReply(status: u8, lsns: LsnPair)

  /** wire_client::read() from the first reply byte on. */
  method ReceiveRead(conn: CraftConn, addr: nat, len: nat, dest: array<u8>, maxTx: nat, dg: Digests,
                     ghost d: Draft, ghost out: seq<u8>, ghost refused: Option<CraftError>, ghost rid: nat,
                     ghost rsp: ReadRsp, ghost es: seq<Desc>, ghost image: seq<u8>)
    returns (result: Result<ReadReply, NetError>)
    requires len <= dest.Length && addr < TWO_64 && len < TWO_64
    requires Replied(d, dg, out, refused, rid, rsp, maxTx) && AllChunks(conn.incoming) && conn.Pending() == out
    modifies conn, dest
    ensures conn.Pending() == []
    ensures result.Ok? ==> result.value == ReadReply(StatusOf(refused), GetRsp(PutRsp(rsp)).lsns)
    ensures refused.Some? ==> result.Ok? && dest[..] == old(dest[..])
    ensures refused.None? ==> (result.Ok? <==> Acceptable(d.body, rsp.count, addr, len))
    ensures result.Err? ==> result == Err(NetError.Malformed)
    ensures refused.None? && !Plannable(d.body, rsp.count, addr, len) ==> dest[..] == old(dest[..])
    ensures refused.None? && Honest(d.body, rsp.count, addr, len, es, image) ==> result.Ok? && dest[..len] == image
    ensures forall p :: len <= p < dest.Length ==> dest[p] == old(dest[p])
  {
    hide Honest, Acceptable, Plannable, Legal, Framed, Parse, PutRsp, GetRsp, StatusOf, AllChunks;
    var msg := conn.RecvMessage(maxTx, dg, d);
    Cancel(out, [], conn.Pending());
    ParseFramed(d, maxTx, dg, []);
    assert out + [] == out;
    var parsed := Parse(msg.value, maxTx, dg);
    if parsed.Err? || parsed.value.hdr.op != READ_RSP || |parsed.value.opHeader| != RSP_SIZE {
      return Err(NetError.Malformed);
    }
    var got := GetRsp(parsed.value.opHeader);
    RspBack(rsp);
    StatusZero(refused);
    result := Ok(ReadReply(parsed.value.hdr.status, got.lsns));
    if parsed.value.hdr.status != 0 { return; }
    var outcome := FillFromReply(parsed.value.body, got.count, addr, len, dest, es, image);
    if outcome != Filled { result := Err(NetError.Malformed); }
  }

  lemma StatusZero(e: Option<CraftError>)
    ensures StatusOf(e) == 0 <==> e.None?
  {
  }

  // ---------------------------------------------------------------- the whole read

  ghost function ImageOf(v: Rep, h: Lsn, addr: nat, len: nat): seq<u8>
    requires v.pageSize > 0 && JournalOk(v.pageSize, v.journal)
  {
    BytesOf(RangeShown(v, h, addr, len), v.pageSize)
  }

  lemma RepliedCount(d: Draft, dg: Digests, out: seq<u8>, refused: Option<CraftError>, rid: nat, rsp: ReadRsp,
                     maxTx: nat)
    requires Replied(d, dg, out, refused, rid, rsp, maxTx)
    ensures rsp.count < TWO_32
  {
  }

  lemma Unrefused(ps: nat, term: nat, hdr: Hdr, addr: nat, len: nat)
    requires ps > 0 && Refusal(ps, term, hdr, addr, len).None?
    ensures Aligned(ps, addr, len)
  {
  }

  /** An honest reply is filled in as what the journal replays to; one past 2^64 is not accepted. */
  lemma ReplyMeans(v: Rep, h: Lsn, addr: nat, len: nat, body: seq<u8>, count: nat, es: seq<Desc>)
    requires RepInv(v) && v.pageSize > 0 && JournalOk(v.pageSize, v.journal) && Aligned(v.pageSize, addr, len)
    requires addr < TWO_64 && len < TWO_64 && StartsAt(body, count, addr)
    requires addr + len < TWO_64 ==> Answers(v, h, addr, len, body, count, es)
    ensures addr + len < TWO_64 ==> Honest(body, count, addr, len, es, ImageOf(v, h, addr, len))
    ensures addr + len >= TWO_64 ==> !Plannable(body, count, addr, len) && !Acceptable(body, count, addr, len)
    ensures ImageOf(v, h, addr, len) == ReplayedBytes(v.pageSize, v.journal, Max(h, v.commit), addr, len)
  {
    hide Honest, Plannable, StartsAt, RepInv, BytesOf, RangeShown, ReplayedBytes;
    RangeIsReplay(v, h, addr, len);
    if addr + len >= TWO_64 { WrappedRefused(body, count, addr, len); }
  }

  /**
   * A read through the stream, however the network cuts the reply up. A refusal comes back
   * as its status; otherwise the destination holds what naive replay of the journal gives.
   * A range that runs past 2^64 is served and then refused by the client. Exactly the reply
   * is taken off the stream, and it carries the replica's watermarks.
   */
  method ReadOverStream(r: MemReplica, conn: CraftConn, hdr: Hdr, h: Lsn, addr: nat, len: nat, dest: array<u8>,
                        rid: nat, maxTx: nat, dg: Digests, table: seq<bv32>, sizes: seq<nat>, ghost payload: nat)
    returns (result: Result<ReadReply, NetError>)
    requires r.Valid() && addr < TWO_64 && len < TWO_64 && rid < TWO_16 && Crc32c.IsTable(table)
    requires Roomy(r.pageSize, len, payload) && FramedBodyMax(payload, r.pageSize) <= maxTx < TWO_32
    requires conn.rx == [] && conn.incoming == []
    modifies r, conn, dest
    ensures r.Valid() && conn.Pending() == []
    ensures dest.Length < len ==> result == Err(NetError.InvalidArgument) && r.View() == old(r.View())
    ensures len <= dest.Length ==>
      var refused := Refusal(r.pageSize, old(r.term), hdr, addr, len);
      && (refused.Some? ==> result.Ok? && r.View() == old(r.View()))
      && (refused.None? ==> (result.Ok? <==> addr + len < TWO_64) && r.View() == DoKeepAlive(old(r.View()), hdr).0)
      && (result.Ok? ==> result.value.status == StatusOf(refused))
      && (result.Ok? && IsI64(r.commit) && IsI64(r.lastAppend) ==> result.value.lsns == LsnPair(r.commit, r.lastAppend))
      && (result.Err? ==> result == Err(NetError.Malformed))
      && (if refused.None? && result.Ok?
          then dest[..len] == ReplayedBytes(r.pageSize, r.journal, Max(h, r.commit), addr, len)
          else dest[..] == old(dest[..]))
    ensures forall p :: len <= p < dest.Length ==> dest[p] == old(dest[p])
  {
    hide Roomy, FramedBodyMax, Answers, StartsAt, Refusal, DoKeepAlive, Replied, StatusOf, Honest, Acceptable;
    hide Plannable, PutRsp, GetRsp, IsI64, RepInv, BytesOf, RangeShown, ReplayedBytes, Aligned, Crc32c.IsTable;
    hide AllChunks;
    if dest.Length < len { return Err(NetError.InvalidArgument); }
    var out;
    ghost var d, refused, rsp, es;
    out, d, refused, rsp, es := ServeRead(r, hdr, h, addr, len, rid, dg, table, payload, maxTx);
    CutIs(out, sizes);
    conn.incoming := Cut(out, sizes);
    Readable(r.View());
    RepliedCount(d, dg, out, refused, rid, rsp, maxTx);
    if refused.None? { Unrefused(r.pageSize, old(r.term), hdr, addr, len); }
    ghost var image := if refused.None? then ImageOf(r.View(), h, addr, len) else [];
    RspBack(rsp);
    if refused.None? { ReplyMeans(r.View(), h, addr, len, d.body, rsp.count, es); }
    result := ReceiveRead(conn, addr, len, dest, maxTx, dg, d, out, refused, rid, rsp, es, image);
  }
}
