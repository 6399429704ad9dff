/** The wire codec: framing and parsing of one message. */
module Wire {
  import opened CraftTypes
  import Bytes
  import Crc32c

  // ---------------------------------------------------------------- little-endian numbers

  const TWO_16 := 0x1_0000
  const TWO_32 := 0x1_0000_0000

  function ByteAt(n: nat): (b: u8) {
    (n % 256) as u8
  }

  function PutU16(n: nat): (s: seq<u8>)
    ensures |s| == 2
  {
    [ByteAt(n), ByteAt(n / 256)]
  }

  function PutU32(n: nat): (s: seq<u8>)
    ensures |s| == 4
  {
    PutU16(n) + PutU16(n / TWO_16)
  }

  function GetU16(s: seq<u8>): (n: nat)
    requires |s| == 2
  {
    s[0] as nat + 256 * (s[1] as nat)
  }

  function GetU32(s: seq<u8>): (n: nat)
    requires |s| == 4
  {
    GetU16(s[..2]) + TWO_16 * GetU16(s[2..])
  }

  lemma U32Bound(s: seq<u8>)
    requires |s| == 4
    ensures GetU32(s) < TWO_32
  {
  }

  lemma ByteBack(n: nat)
    ensures ByteAt(n) as nat == n % 256
  {
    Bytes.SmallByte(n % 256);
  }

  lemma TwoBytes(n: nat)
    ensures n % TWO_16 == n % 256 + 256 * (n / 256 % 256)
  {
  }

  lemma U16Back(n: nat)
    ensures GetU16(PutU16(n)) == n % TWO_16
  {
    hide ByteAt;
    ByteBack(n);
    ByteBack(n / 256);
    TwoBytes(n);
  }

  lemma U32Back(n: nat)
    requires n < TWO_32
    ensures GetU32(PutU32(n)) == n
  {
    hide GetU16, PutU16;
    U16Back(n);
    U16Back(n / TWO_16);
    assert PutU32(n)[..2] == PutU16(n) && PutU32(n)[2..] == PutU16(n / TWO_16);
    assert n / TWO_16 < TWO_16;
  }

  /** Lowest byte first. */
  lemma LittleEndian(n: nat)
    ensures PutU16(n)[0] as nat == n % 256 && PutU16(n)[1] as nat == n / 256 % 256
    ensures PutU32(n)[..2] == PutU16(n) && PutU32(n)[2..] == PutU16(n / 65536)
  {
    ByteBack(n);
    ByteBack(n / 256);
  }

  /** A digest travels as its four bytes, lowest first. */
  function PutDigest(c: bv32): (s: seq<u8>)
    ensures |s| == 4
  {
    [(c & 0xFF) as u8, ((c >> 8) & 0xFF) as u8, ((c >> 16) & 0xFF) as u8, ((c >> 24) & 0xFF) as u8]
  }

  function GetDigest(s: seq<u8>): (c: bv32)
    requires |s| == 4
  {
    (s[0] as bv32) | ((s[1] as bv32) << 8) | ((s[2] as bv32) << 16) | ((s[3] as bv32) << 24)
  }

  lemma DigestBack(c: bv32)
    ensures GetDigest(PutDigest(c)) == c
  {
  }

  // ---------------------------------------------------------------- op codes

  const MAX_OP := 20

  /** The fixed operation-header size of each op code. */
  function OpHdrSize(op: u8): (n: Option<nat>)
    ensures n.Some? ==> n.value <= 56
  {
    var k := op as nat;
    if k < 1 || k > MAX_OP then None else Some(SIZES[k])
  }

  const SIZES: seq<nat> := [0, 24, 56, 32, 0, 40, 16, 40, 24, 16, 16, 16, 0, 24, 16, 32, 0, 16, 16, 8, 8]

  /** Each operation header is the packed struct of its fields. */
  lemma OpHeaderSizes()
    ensures SIZES == [
      0,
      16 + 8,                           // login: volume, token
      8 + 8 + 8 + 4 + 4 + 4 + 4 + 16,   // login_rsp: term, dLSN, capacity, block, max_tx, members, reserved, leader
      16 + 8 + 8,                       // helo: volume, token, term
      0,                                // helo_rsp
      16 + 8 + 8 + 8,                   // write: watermarks, dLSN, address, length
      8 + 8,                            // write_rsp: commit and append dLSN
      16 + 8 + 8 + 8,                   // read: watermarks, horizon, address, length
      8 + 8 + 4 + 4,                    // read_rsp: commit and append dLSN, extents, reserved
      16,                               // keepalive: watermarks
      8 + 8,                            // keepalive_rsp: commit and append dLSN
      16,                               // logout: watermarks
      0,                                // logout_rsp
      16 + 8,                           // resolve: watermarks, upto
      8 + 4 + 4,                        // resolve_rsp: upto, count, reserved
      16 + 8 + 4 + 4,                   // create_volume: volume, capacity, block, members
      0,                                // create_volume_rsp
      8 + 1 + 7,                        // get_rs_commit_lsn: term, flag, reserved
      8 + 8,                            // get_rs_commit_lsn_rsp: commit and append dLSN
      4 + 4,                            // fetch_data: count, reserved
      4 + 4]                            // fetch_data_rsp: count, reserved
  {
  }

  lemma KnownOps(op: u8)
    ensures OpHdrSize(op).Some? <==> 1 <= op <= 20
  {
  }

  /** write, login_rsp, read_rsp, resolve_rsp, create_volume, fetch_data and fetch_data_rsp carry a body. */
  predicate AllowsBody(op: u8) {
    op in {5, 2, 8, 14, 15, 19, 20}
  }

  // ---------------------------------------------------------------- messages

  datatype Digests = Digests(header: bool, data: bool)

  datatype Header = Header(op: u8, status: u8, requestId: nat, bodyLen: nat)

  datatype Message = Message(hdr: Header, opHeader: seq<u8>, body: seq<u8>, total: nat)

  datatype ParseError = Incomplete | UnknownOp | BadLength | BadDigest

  const HDR_SIZE := 8

  function PutHeader(h: Header): (s: seq<u8>)
    ensures |s| == HDR_SIZE
  {
    [h.op, h.status] + PutU16(h.requestId) + PutU32(h.bodyLen)
  }

  function GetHeader(s: seq<u8>): (h: Header)
    requires |s| == HDR_SIZE
  {
    Header(s[0], s[1], GetU16(s[2..4]), GetU32(s[4..]))
  }

  /** Where the fields of the message header are. */
  lemma HeaderLayout(h: Header)
    ensures var s := PutHeader(h);
      s[0] == h.op && s[1] == h.status && s[2..4] == PutU16(h.requestId) && s[4..8] == PutU32(h.bodyLen)
  {
  }

  lemma HeaderBack(h: Header)
    requires h.requestId < TWO_16 && h.bodyLen < TWO_32
    ensures GetHeader(PutHeader(h)) == h
  {
    hide GetU16, PutU16, GetU32, PutU32;
    U16Back(h.requestId);
    U32Back(h.bodyLen);
    var s := PutHeader(h);
    assert s[2..4] == PutU16(h.requestId) && s[4..] == PutU32(h.bodyLen);
  }

  function DigestBytes(on: bool, covered: seq<u8>): (s: seq<u8>)
    ensures |s| == if on then 4 else 0
  {
    if on then PutDigest(Crc32c.Digest(covered)) else []
  }

  /** The digest stored at the end of `s` matches `covered`. */
  predicate DigestOk(on: bool, stored: seq<u8>, covered: seq<u8>)
    requires |stored| == if on then 4 else 0
  {
    on ==> GetDigest(stored) == Crc32c.Digest(covered)
  }

  /** Parse one message from the front of `buf`. */
  function Parse(buf: seq<u8>, maxTx: nat, dg: Digests): (r: Result<Message, ParseError>)
    ensures r.Ok? ==> r.value.total <= |buf|
  {
    if |buf| < HDR_SIZE then Err(Incomplete) else
    var hdr := GetHeader(buf[..HDR_SIZE]);
    var ohs := OpHdrSize(hdr.op);
    if ohs.None? then Err(UnknownOp)
    else if hdr.bodyLen > maxTx then Err(BadLength)
    else if hdr.bodyLen > 0 && !AllowsBody(hdr.op) then Err(BadLength) else
    var hdrEnd := HDR_SIZE + ohs.value;
    var bodyStart := hdrEnd + (if dg.header then 4 else 0);
    var bodyEnd := bodyStart + hdr.bodyLen;
    var total := bodyEnd + (if dg.data then 4 else 0);
    if |buf| < total then Err(Incomplete)
    else if !DigestOk(dg.header, buf[hdrEnd..bodyStart], buf[..hdrEnd]) then Err(BadDigest)
    else if !DigestOk(dg.data, buf[bodyEnd..total], buf[bodyStart..bodyEnd]) then Err(BadDigest)
    else Ok(Message(hdr, buf[HDR_SIZE..hdrEnd], buf[bodyStart..bodyEnd], total))
  }

  // ---------------------------------------------------------------- framing

  /** What a message is framed from. */
  datatype Draft = Draft(op: u8, status: u8, requestId: nat, opHeader: seq<u8>, body: seq<u8>)

  /** An op header of the table's size, and a body only where one is allowed and small enough. */
  predicate Legal(c: Draft, maxTx: nat) {
    && c.requestId < TWO_16 && |c.body| < TWO_32 && |c.body| <= maxTx
    && OpHdrSize(c.op) == Some(|c.opHeader|)
    && (c.body != [] ==> AllowsBody(c.op))
  }

  function HeaderOf(c: Draft): Header {
    Header(c.op, c.status, c.requestId, |c.body| % TWO_32)
  }

  function HeadOf(c: Draft): seq<u8> {
    PutHeader(HeaderOf(c)) + c.opHeader
  }

  function Framed(c: Draft, dg: Digests): (s: seq<u8>)
    ensures |s| == HDR_SIZE + |c.opHeader| + |c.body| + (if dg.header then 4 else 0) + (if dg.data then 4 else 0)
  {
    HeadOf(c) + DigestBytes(dg.header, HeadOf(c)) + c.body + DigestBytes(dg.data, c.body)
  }

  /** frame_message(): append a complete message to `out`. */
  method FrameMessage(out: seq<u8>, c: Draft, dg: Digests, table: seq<bv32>) returns (res: seq<u8>)
    requires Crc32c.IsTable(table)
    ensures res == out + Framed(c, dg)
  {
    hide PutHeader, PutDigest, Crc32c.Digest, Crc32c.IsTable;
    var start := |out|;
    res := out + PutHeader(Header(c.op, c.status, c.requestId, |c.body| % TWO_32));
    res := res + c.opHeader;
    assert res[start..] == HeadOf(c);
    if dg.header {
      var d := Crc32c.Compute(table, res[start..]);
      res := res + PutDigest(d);
    }
    assert res == out + (HeadOf(c) + DigestBytes(dg.header, HeadOf(c)));
    res := res + c.body;
    if dg.data {
      var d := Crc32c.Compute(table, c.body);
      res := res + PutDigest(d);
    }
    assert res == out + Framed(c, dg);
  }

  // ---------------------------------------------------------------- parsing undoes framing

  /** The first eight bytes of a frame, however much of it has arrived, give its header. */
  lemma HeaderSeen(c: Draft, dg: Digests, buf: seq<u8>)
    requires c.requestId < TWO_16 && |c.body| < TWO_32 && HDR_SIZE <= |buf|
    requires buf <= Framed(c, dg) || Framed(c, dg) <= buf
    ensures GetHeader(buf[..HDR_SIZE]) == HeaderOf(c) && |c.body| % TWO_32 == |c.body|
  {
    hide GetHeader, PutHeader, DigestBytes, OpHdrSize, AllowsBody;
    HeaderBack(HeaderOf(c));
    assert Framed(c, dg)[..HDR_SIZE] == PutHeader(HeaderOf(c));
    assert buf[..HDR_SIZE] == Framed(c, dg)[..HDR_SIZE];
  }

  /** Every strict prefix of a frame is incomplete. */
  lemma PrefixIncomplete(c: Draft, maxTx: nat, dg: Digests, buf: seq<u8>)
    requires Legal(c, maxTx) && buf < Framed(c, dg)
    ensures Parse(buf, maxTx, dg) == Err(Incomplete)
  {
    hide GetHeader, DigestOk, DigestBytes, HeadOf;
    if |buf| >= HDR_SIZE { HeaderSeen(c, dg, buf); }
  }

  /** A frame followed by anything parses to what was framed, and to its exact length. */
  lemma ParseFramed(c: Draft, maxTx: nat, dg: Digests, rest: seq<u8>)
    requires Legal(c, maxTx)
    ensures Parse(Framed(c, dg) + rest, maxTx, dg) ==
      Ok(Message(HeaderOf(c), c.opHeader, c.body, |Framed(c, dg)|))
  {
    hide Framed, HeadOf, DigestBytes, GetHeader, DigestOk, OpHdrSize, AllowsBody;
    var buf := Framed(c, dg) + rest;
    HeaderSeen(c, dg, buf);
    FramedParts(c, dg, rest);
    OwnDigestOk(dg.header, HeadOf(c));
    OwnDigestOk(dg.data, c.body);
  }

  /** A write request brings its payload across, whatever the payload is. */
  lemma WriteTravels(requestId: nat, hdr: seq<u8>, payload: seq<u8>, maxTx: nat, dg: Digests, rest: seq<u8>)
    requires requestId < 65536 && |hdr| == 40 && |payload| <= maxTx && |payload| < 0x1_0000_0000
    ensures var buf := Framed(Draft(5, 0, requestId, hdr, payload), dg);
      Parse(buf + rest, maxTx, dg) == Ok(Message(Header(5, 0, requestId, |payload|), hdr, payload, |buf|))
  {
    hide Parse, Framed, HeadOf;
    assert OpHdrSize(5) == Some(40);
    ParseFramed(Draft(5, 0, requestId, hdr, payload), maxTx, dg, rest);
  }

  /**
   * What is refused on its first eight bytes, however much follows: an unknown op, a body
   * above the limit, a body on an op that has none.
   */
  lemma HeaderRefused(c: Draft, maxTx: nat, dg: Digests, buf: seq<u8>)
    requires c.requestId < TWO_16 && |c.body| < TWO_32 && HDR_SIZE <= |buf|
    requires buf <= Framed(c, dg) || Framed(c, dg) <= buf
    ensures c.op == 0 || c.op > 20 ==> Parse(buf, maxTx, dg) == Err(UnknownOp)
    ensures 1 <= c.op <= 20 && |c.body| > maxTx ==> Parse(buf, maxTx, dg) == Err(BadLength)
    ensures 1 <= c.op <= 20 && |c.body| > 0 && c.op !in {2, 5, 8, 14, 15, 19, 20} ==>
      Parse(buf, maxTx, dg) == Err(BadLength)
  {
    HeaderSeen(c, dg, buf);
    KnownOps(c.op);
    hide GetHeader, DigestOk, DigestBytes, HeadOf, OpHdrSize;
  }

  lemma OwnDigestOk(on: bool, covered: seq<u8>)
    ensures DigestOk(on, DigestBytes(on, covered), covered)
  {
    hide Crc32c.Digest, PutDigest, GetDigest;
    DigestBack(Crc32c.Digest(covered));
  }

  lemma FramedParts(c: Draft, dg: Digests, rest: seq<u8>)
    ensures var buf := Framed(c, dg) + rest;
      var hdrEnd := HDR_SIZE + |c.opHeader|;
      var bodyStart := hdrEnd + (if dg.header then 4 else 0);
      var bodyEnd := bodyStart + |c.body|;
      var total := bodyEnd + (if dg.data then 4 else 0);
      && total == |Framed(c, dg)| && buf[HDR_SIZE..hdrEnd] == c.opHeader && buf[..hdrEnd] == HeadOf(c)
      && buf[hdrEnd..bodyStart] == DigestBytes(dg.header, HeadOf(c))
      && buf[bodyStart..bodyEnd] == c.body && buf[bodyEnd..total] == DigestBytes(dg.data, c.body)
  {
    hide DigestBytes;
    assert HeadOf(c)[HDR_SIZE..] == c.opHeader && |HeadOf(c)| == HDR_SIZE + |c.opHeader|;
    hide HeadOf;
    FourParts(HeadOf(c), DigestBytes(dg.header, HeadOf(c)), c.body, DigestBytes(dg.data, c.body), rest);
    var buf, hdrEnd := Framed(c, dg) + rest, HDR_SIZE + |c.opHeader|;
    assert buf[HDR_SIZE..hdrEnd] == buf[..hdrEnd][HDR_SIZE..];
  }

  /** Where the parts of a concatenation are. */
  lemma FourParts(a: seq<u8>, b: seq<u8>, c: seq<u8>, d: seq<u8>, rest: seq<u8>)
    ensures var (buf, i, j) := (a + b + c + d + rest, |a| + |b|, |a| + |b| + |c|);
      buf[..|a|] == a && buf[|a|..i] == b && buf[i..j] == c && buf[j..j + |d|] == d
  {
  }

  /** A slice of a prefix is that slice of the whole. */
  lemma SliceOfPrefix(buf: seq<u8>, n: nat, i: nat, j: nat)
    requires i <= j <= n <= |buf|
    ensures buf[..n][i..j] == buf[i..j]
  {
  }

  /** A message parses the same from exactly its own bytes. */
  lemma ParseOwnBytes(buf: seq<u8>, maxTx: nat, dg: Digests)
    requires Parse(buf, maxTx, dg).Ok?
    ensures var m := Parse(buf, maxTx, dg).value; Parse(buf[..m.total], maxTx, dg) == Ok(m)
  {
    hide GetHeader, DigestOk, OpHdrSize, AllowsBody;
    var m := Parse(buf, maxTx, dg).value;
    var hdrEnd := HDR_SIZE + OpHdrSize(m.hdr.op).value;
    var bodyStart := hdrEnd + (if dg.header then 4 else 0);
    var bodyEnd := bodyStart + m.hdr.bodyLen;
    SliceOfPrefix(buf, m.total, 0, HDR_SIZE);
    SliceOfPrefix(buf, m.total, 0, hdrEnd);
    SliceOfPrefix(buf, m.total, HDR_SIZE, hdrEnd);
    SliceOfPrefix(buf, m.total, hdrEnd, bodyStart);
    SliceOfPrefix(buf, m.total, bodyStart, bodyEnd);
    SliceOfPrefix(buf, m.total, bodyEnd, m.total);
  }

  // ---------------------------------------------------------------- corruption

  function BodyStart(c: Draft, dg: Digests): nat {
    HDR_SIZE + |c.opHeader| + (if dg.header then 4 else 0)
  }

  /** One changed body byte is always rejected when the data digest is on. */
  lemma CorruptBodyRejected(c: Draft, maxTx: nat, dg: Digests, rest: seq<u8>, i: nat, b: u8)
    requires Legal(c, maxTx) && dg.data && i < |c.body| && b != c.body[i]
    ensures Parse((Framed(c, dg) + rest)[BodyStart(c, dg) + i := b], maxTx, dg) == Err(BadDigest)
  {
    hide Framed, HeadOf, DigestBytes, GetHeader, DigestOk, OpHdrSize, AllowsBody;
    var buf := Framed(c, dg) + rest;
    var bad := buf[BodyStart(c, dg) + i := b];
    HeaderSeen(c, dg, buf);
    FramedParts(c, dg, rest);
    CorruptParts(c, dg, rest, i, b);
    OwnDigestOk(dg.header, HeadOf(c));
    WrongDigest(c.body, i, b);
  }

  lemma CorruptParts(c: Draft, dg: Digests, rest: seq<u8>, i: nat, b: u8)
    requires i < |c.body|
    ensures var buf, at := Framed(c, dg) + rest, BodyStart(c, dg);
      var bad := buf[at + i := b];
      var total := |Framed(c, dg)|;
      && bad[..HDR_SIZE] == buf[..HDR_SIZE] && bad[..HDR_SIZE + |c.opHeader|] == buf[..HDR_SIZE + |c.opHeader|]
      && bad[HDR_SIZE + |c.opHeader|..at] == buf[HDR_SIZE + |c.opHeader|..at]
      && bad[at..at + |c.body|] == c.body[i := b] && bad[at + |c.body|..total] == buf[at + |c.body|..total]
  {
    hide HeadOf, DigestBytes;
    FramedParts(c, dg, rest);
    var buf, at := Framed(c, dg) + rest, BodyStart(c, dg);
    var bad := buf[at + i := b];
    assert bad[at..at + |c.body|] == buf[at..at + |c.body|][i := b];
  }

  /** The corrupted frame has its header digest where the original had it, over other bytes. */
  lemma CorruptHead(c: Draft, dg: Digests, rest: seq<u8>, i: nat, b: u8)
    requires i < HDR_SIZE + |c.opHeader| && dg.header
    ensures var buf, at := Framed(c, dg) + rest, HDR_SIZE + |c.opHeader|;
      var bad := buf[i := b];
      && |HeadOf(c)| == at && bad[..at] == HeadOf(c)[i := b] && bad[at..at + 4] == DigestBytes(true, HeadOf(c))
      && |bad| >= |Framed(c, dg)| >= at + 4
  {
    hide HeadOf, DigestBytes;
    FramedParts(c, dg, rest);
    var buf, at := Framed(c, dg) + rest, HDR_SIZE + |c.opHeader|;
    assert buf[i := b][..at] == buf[..at][i := b];
  }

  /** Reading the header of a corrupted frame. */
  lemma HeaderAfter(buf: seq<u8>, i: nat, b: u8)
    requires HDR_SIZE <= |buf| && i < |buf|
    ensures var (h, h') := (GetHeader(buf[..HDR_SIZE]), GetHeader(buf[i := b][..HDR_SIZE]));
      && h'.op == (if i == 0 then b else h.op) && (i < 4 || HDR_SIZE <= i ==> h'.bodyLen == h.bodyLen)
  {
    hide GetU16, GetU32;
    assert i < 4 || HDR_SIZE <= i ==> buf[i := b][..HDR_SIZE][4..] == buf[..HDR_SIZE][4..];
  }

  /**
   * With the header digest on, a frame with one changed byte in its two headers is never
   * accepted, provided the op byte still names an op with a header of the same size or no
   * op at all. Unless the byte belongs to the op or the body length, the digest is what fails.
   */
  lemma CorruptHeadRejected(c: Draft, maxTx: nat, dg: Digests, rest: seq<u8>, i: nat, b: u8)
    requires Legal(c, maxTx) && dg.header && i < HDR_SIZE + |c.opHeader| && b != HeadOf(c)[i]
    requires i == 0 ==> OpHdrSize(b) in {None, OpHdrSize(c.op)}
    ensures Parse((Framed(c, dg) + rest)[i := b], maxTx, dg).Err?
    ensures 1 <= i < 4 || HDR_SIZE <= i ==> Parse((Framed(c, dg) + rest)[i := b], maxTx, dg) == Err(BadDigest)
  {
    hide Framed, HeadOf, DigestBytes, GetHeader, DigestOk, OpHdrSize, AllowsBody;
    var buf := Framed(c, dg) + rest;
    HeaderSeen(c, dg, buf);
    HeaderAfter(buf, i, b);
    CorruptHead(c, dg, rest, i, b);
    WrongDigest(HeadOf(c), i, b);
  }

  /** A write header whose 32nd byte on happens to be the digest of a helo in its place. */
  function LooksLikeHelo(requestId: nat, hdr: seq<u8>, tail: seq<u8>): Draft {
    Draft(5, 0, requestId, hdr + PutDigest(Crc32c.Digest(PutHeader(Header(3, 0, requestId, 0)) + hdr)) + tail, [])
  }

  lemma HeloParts(requestId: nat, hdr: seq<u8>, tail: seq<u8>)
    requires requestId < TWO_16 && |hdr| == 32 && |tail| == 4
    ensures var (c, helo) := (LooksLikeHelo(requestId, hdr, tail), PutHeader(Header(3, 0, requestId, 0)));
      var bad := Framed(c, Digests(true, false))[0 := 3];
      && |c.opHeader| == 40 && HeadOf(c)[0] == 5 && |bad| == 52
      && bad[..HDR_SIZE] == helo && bad[..40] == helo + hdr && bad[HDR_SIZE..40] == hdr
      && bad[40..44] == PutDigest(Crc32c.Digest(helo + hdr))
  {
    hide PutU16, PutU32, PutDigest, Crc32c.Digest, DigestBytes;
    var c, helo := LooksLikeHelo(requestId, hdr, tail), PutHeader(Header(3, 0, requestId, 0));
    assert PutHeader(HeaderOf(c))[0 := 3] == helo;
    var bad := Framed(c, Digests(true, false))[0 := 3];
    hide PutHeader;
    assert bad == helo + hdr + PutDigest(Crc32c.Digest(helo + hdr)) + tail + DigestBytes(true, HeadOf(c));
  }

  /** The proviso is needed: with the op byte changed such a frame is accepted, as a helo. */
  lemma CorruptOpAccepted(requestId: nat, hdr: seq<u8>, tail: seq<u8>, maxTx: nat)
    requires requestId < TWO_16 && |hdr| == 32 && |tail| == 4
    ensures var (c, dg) := (LooksLikeHelo(requestId, hdr, tail), Digests(true, false));
      && Legal(c, maxTx) && HeadOf(c)[0] != 3
      && Parse(Framed(c, dg)[0 := 3], maxTx, dg) == Ok(Message(Header(3, 0, requestId, 0), hdr, [], 44))
  {
    hide Framed, HeadOf, PutHeader, GetHeader, PutDigest, GetDigest, Crc32c.Digest;
    assert OpHdrSize(5) == Some(40) && OpHdrSize(3) == Some(32);
    hide OpHdrSize;
    HeaderBack(Header(3, 0, requestId, 0));
    HeloParts(requestId, hdr, tail);
    assert Framed(LooksLikeHelo(requestId, hdr, tail), Digests(true, false))[0 := 3][44..44] == [];
    DigestBack(Crc32c.Digest(PutHeader(Header(3, 0, requestId, 0)) + hdr));
  }

  lemma WrongDigest(body: seq<u8>, i: nat, b: u8)
    requires i < |body| && b != body[i]
    ensures !DigestOk(true, DigestBytes(true, body), body[i := b])
  {
    hide Crc32c.Digest, PutDigest, GetDigest;
    DigestBack(Crc32c.Digest(body));
    Crc32c.DigestNotices(body, body[i := b], i);
  }
}
