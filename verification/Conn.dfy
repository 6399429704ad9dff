/** A connection reassembling messages from whatever chunks the socket delivers. */
module Conn {
  import opened CraftTypes
  import opened Wire

  datatype NetError = Malformed | TimedOut | Closed | RecvFailed | InvalidArgument

  /** One io_recv: some bytes, or no more of them, or a failure. */
  datatype Recv = Chunk(bytes: seq<u8>) | Eof | Timeout | Failure

  const RECV_CHUNK := 16384

  /** The bytes still to come. */
  function Flat(rs: seq<Recv>): seq<u8> {
    if rs == [] then [] else (if rs[0].Chunk? then rs[0].bytes else []) + Flat(rs[1..])
  }

  /** Only non-empty chunks no larger than the receive buffer. */
  predicate AllChunks(rs: seq<Recv>) {
    forall k :: 0 <= k < |rs| ==> rs[k].Chunk? && 0 < |rs[k].bytes| <= RECV_CHUNK
  }

  lemma FrameArrives(c: Draft, maxTx: nat, dg: Digests, rx: seq<u8>, incoming: seq<Recv>)
    requires Legal(c, maxTx) && Framed(c, dg) <= rx + Flat(incoming)
    ensures |rx| < |Framed(c, dg)| ==> Parse(rx, maxTx, dg) == Err(Incomplete) && incoming != []
    ensures |rx| >= |Framed(c, dg)| ==> Framed(c, dg) <= rx
    ensures |rx| >= |Framed(c, dg)| ==>
      Parse(rx, maxTx, dg) == Ok(Message(HeaderOf(c), c.opHeader, c.body, |Framed(c, dg)|))
  {
    hide Framed, Parse, Legal;
    var f, all := Framed(c, dg), rx + Flat(incoming);
    if |rx| < |f| {
      assert rx == all[..|rx|] == f[..|rx|];
      PrefixIncomplete(c, maxTx, dg, rx);
    } else {
      assert f == all[..|f|] == rx[..|f|];
      ParseFramed(c, maxTx, dg, rx[|f|..]);
      assert rx == f + rx[|f|..];
    }
  }

  function Zeroes(n: nat): (s: seq<u8>)
    ensures |s| == n && forall k :: 0 <= k < n ==> s[k] == 0
  {
    seq(n, _ => 0)
  }

  /** The stream ends before anything but an incomplete message has come. */
  predicate EndsFirst(rx: seq<u8>, rs: seq<Recv>, maxTx: nat, dg: Digests)
    decreases |rs|
  {
    && Parse(rx, maxTx, dg) == Err(Incomplete)
    && (rs == [] || rs[0].Eof? || (rs[0].Chunk? && EndsFirst(rx + rs[0].bytes, rs[1..], maxTx, dg)))
  }

  lemma EndsIncomplete(rx: seq<u8>, rs: seq<Recv>, maxTx: nat, dg: Digests)
    ensures EndsFirst(rx, rs, maxTx, dg) ==> Parse(rx, maxTx, dg) == Err(Incomplete)
  {
    hide Parse;
  }

  /** One io_recv on an incomplete message. */
  lemma NextRecv(rx: seq<u8>, rs: seq<Recv>, maxTx: nat, dg: Digests)
    requires Parse(rx, maxTx, dg) == Err(Incomplete)
    ensures rs == [] ==> EndsFirst(rx, rs, maxTx, dg) && Flat(rs) == []
    ensures rs != [] ==> (AllChunks(rs) ==> AllChunks(rs[1..]) && rs[0].Chunk?)
    ensures rs != [] && !rs[0].Chunk? ==> Flat(rs[1..]) == Flat(rs) && (EndsFirst(rx, rs, maxTx, dg) <==> rs[0].Eof?)
    ensures rs != [] && rs[0].Chunk? ==> (rx + rs[0].bytes) + Flat(rs[1..]) == rx + Flat(rs)
    ensures rs != [] && rs[0].Chunk? ==>
      EndsFirst(rx, rs, maxTx, dg) == EndsFirst(rx + rs[0].bytes, rs[1..], maxTx, dg)
  {
    hide Parse;
  }

  class CraftConn {
    var rx: seq<u8>
    var incoming: seq<Recv>

    /** Received but not yet consumed, then still to come. */
    ghost function Pending(): seq<u8>
      reads this
    {
      rx + Flat(incoming)
    }

    /** One io_recv; a source that has run dry reports the end of the stream. */
    method IoRecv() returns (r: Recv)
      modifies this`incoming
      ensures old(incoming) == [] ==> r == Eof && incoming == []
      ensures old(incoming) != [] ==> r == old(incoming)[0] && incoming == old(incoming)[1..]
    {
      if incoming == [] { return Eof; }
      r := incoming[0];
      incoming := incoming[1..];
    }

    /** Take a message off the front and keep the bytes past it. */
    method CutFront(total: nat) returns (msg: seq<u8>)
      requires total <= |rx|
      modifies this`rx
      ensures msg == old(rx)[..total] && old(Pending()) == msg + Pending()
    {
      msg := rx[..total];
      assert rx + Flat(incoming) == msg + (rx[total..] + Flat(incoming));
      rx := rx[total..];
    }

    /** The buffer keeps the room it made for a chunk that did not come. */
    method LeaveRoom()
      modifies this`rx
      ensures |rx| == |old(rx)| + RECV_CHUNK && rx[..|rx| - RECV_CHUNK] == old(rx)
      ensures rx[|rx| - RECV_CHUNK..] == Zeroes(RECV_CHUNK) && |Pending()| == |old(Pending())| + RECV_CHUNK
    {
      rx := rx + Zeroes(RECV_CHUNK);
    }

    /**
     * recv_message(): read until a message is complete, keep the bytes past it. Whenever a
     * legal frame is next in the stream it is returned whole, however it was cut up. Bytes
     * are neither lost nor made up unless the stream ends first, which is exactly when the
     * result is Closed: then the room made for the next chunk stays behind as zeroes.
     */
    method RecvMessage(maxTx: nat, dg: Digests, ghost c: Draft) returns (r: Result<seq<u8>, NetError>)
      modifies this
      ensures Legal(c, maxTx) && old(AllChunks(incoming)) && Framed(c, dg) <= old(Pending()) ==> r == Ok(Framed(c, dg))
      ensures old(AllChunks(incoming)) ==> AllChunks(incoming)
      ensures r.Ok? ==> Parse(r.value, maxTx, dg).Ok?
      ensures r == Err(NetError.Closed) <==> old(EndsFirst(rx, incoming, maxTx, dg))
      ensures !old(EndsFirst(rx, incoming, maxTx, dg)) <==>
        old(Pending()) == (if r.Ok? then r.value else []) + Pending()
      ensures r == Err(NetError.Closed) ==>
        && |rx| >= RECV_CHUNK && rx[|rx| - RECV_CHUNK..] == Zeroes(RECV_CHUNK)
        && old(Pending()) == rx[..|rx| - RECV_CHUNK] + Flat(incoming)
    {
      hide Parse, Legal, Framed, Zeroes, EndsFirst, Flat, AllChunks;
      ghost var next := Legal(c, maxTx) && AllChunks(incoming) && Framed(c, dg) <= Pending();
      while true
        invariant EndsFirst(rx, incoming, maxTx, dg) == old(EndsFirst(rx, incoming, maxTx, dg))
        invariant Pending() == old(Pending()) && (old(AllChunks(incoming)) ==> AllChunks(incoming))
        decreases |incoming|
      {
        if next { FrameArrives(c, maxTx, dg, rx, incoming); }
        EndsIncomplete(rx, incoming, maxTx, dg);
        var p := Parse(rx, maxTx, dg);
        if p.Ok? {
          ParseOwnBytes(rx, maxTx, dg);
          assert next ==> rx[..p.value.total] == Framed(c, dg);
          var msg := CutFront(p.value.total);
          return Ok(msg);
        }
        if p.error != Incomplete { return Err(NetError.Malformed); }
        NextRecv(rx, incoming, maxTx, dg);
        var got := IoRecv();
        match got {
          case Timeout => return Err(NetError.TimedOut);
          case Failure => return Err(NetError.RecvFailed);
          case Eof =>
            LeaveRoom();
            return Err(NetError.Closed);
          case Chunk(bytes) => rx := rx + bytes;
        }
      }
    }
  }

  /** A connection that the peer closes before sending anything is left holding a receive buffer of zeroes. */
  method ClosedAtOnce(conn: CraftConn, maxTx: nat, dg: Digests, ghost c: Draft) returns (r: Result<seq<u8>, NetError>)
    requires conn.rx == [] && conn.incoming == []
    modifies conn
    ensures r == Err(NetError.Closed) && conn.rx == Zeroes(RECV_CHUNK)
  {
    r := conn.RecvMessage(maxTx, dg, c);
    assert conn.rx == conn.rx[|conn.rx| - RECV_CHUNK..];
  }

  // ---------------------------------------------------------------- whole streams

  function Stream(cs: seq<Draft>, dg: Digests): seq<u8> {
    if cs == [] then [] else Framed(cs[0], dg) + Stream(cs[1..], dg)
  }

  lemma Cancel(f: seq<u8>, x: seq<u8>, y: seq<u8>)
    requires f + x == f + y
    ensures x == y
  {
    assert (f + x)[|f|..] == x && (f + y)[|f|..] == y;
  }

  /**
   * Any concatenation of legal frames, cut into arbitrary non-empty chunks, comes out of
   * successive recv_message() calls as the same frames in order, and nothing else is consumed.
   */
  method RecvFrames(conn: CraftConn, maxTx: nat, dg: Digests, n: nat, ghost cs: seq<Draft>, ghost tail: seq<u8>)
    returns (frames: seq<seq<u8>>)
    requires |cs| == n && (forall k :: 0 <= k < n ==> Legal(cs[k], maxTx))
    requires AllChunks(conn.incoming) && conn.Pending() == Stream(cs, dg) + tail
    modifies conn
    ensures |frames| == n && (forall k :: 0 <= k < n ==> frames[k] == Framed(cs[k], dg))
    ensures conn.Pending() == tail
  {
    hide Legal, Framed;
    frames := [];
    for k := 0 to n
      invariant |frames| == k && (forall j :: 0 <= j < k ==> frames[j] == Framed(cs[j], dg))
      invariant AllChunks(conn.incoming) && conn.Pending() == Stream(cs[k..], dg) + tail
    {
      assert cs[k..][1..] == cs[k + 1..];
      ghost var f, rest := Framed(cs[k], dg), Stream(cs[k + 1..], dg) + tail;
      assert conn.Pending() == f + rest;
      var r := conn.RecvMessage(maxTx, dg, cs[k]);
      Cancel(f, rest, conn.Pending());
      frames := frames + [r.value];
    }
    assert cs[n..] == [];
  }
}
