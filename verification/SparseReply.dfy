/** The sparse read reply: an extent table, then the bytes of the data extents; and what the client makes of it. */
module SparseReply {
  import opened CraftTypes
  import opened ReadLayout
  import opened Wire

  const TWO_64 := 0x1_0000_0000_0000_0000
  const DESC_SIZE := 24

  // ---------------------------------------------------------------- extent descriptors

  /** An extent as it travels; any non-zero `hole` byte marks a hole. */
  datatype Desc = Desc(addr: nat, len: nat, hole: u8)

  function PutU64(n: nat): (s: seq<u8>)
    ensures |s| == 8
  {
    PutU32(n % TWO_32) + PutU32(n / TWO_32)
  }

  function GetU64(s: seq<u8>): (n: nat)
    requires |s| == 8
  {
    GetU32(s[..4]) + TWO_32 * GetU32(s[4..])
  }

  lemma U64Back(n: nat)
    requires n < TWO_64
    ensures GetU64(PutU64(n)) == n
  {
    hide PutU32, GetU32;
    U32Back(n % TWO_32);
    assert n / TWO_32 < TWO_32;
    U32Back(n / TWO_32);
    assert PutU64(n)[..4] == PutU32(n % TWO_32) && PutU64(n)[4..] == PutU32(n / TWO_32);
  }

  lemma U64Bound(s: seq<u8>)
    requires |s| == 8
    ensures GetU64(s) < TWO_64
  {
    hide GetU32;
    U32Bound(s[..4]);
    U32Bound(s[4..]);
  }

  function PutDesc(e: Desc): (s: seq<u8>)
    ensures |s| == DESC_SIZE
  {
    PutU64(e.addr) + PutU64(e.len) + [e.hole] + [0, 0, 0, 0, 0, 0, 0]
  }

  function GetDesc(s: seq<u8>): (e: Desc)
    requires |s| == DESC_SIZE
  {
    Desc(GetU64(s[..8]), GetU64(s[8..16]), s[16])
  }

  /** Where the fields of an extent descriptor are, lowest byte first. */
  lemma DescLayout(e: Desc)
    ensures var s := PutDesc(e);
      && s[..4] == PutU32(e.addr % TWO_32) && s[4..8] == PutU32(e.addr / TWO_32)
      && s[8..12] == PutU32(e.len % TWO_32) && s[12..16] == PutU32(e.len / TWO_32) && s[16] == e.hole
  {
    hide PutU32;
    assert PutU64(e.addr)[..4] == PutU32(e.addr % TWO_32) && PutU64(e.addr)[4..] == PutU32(e.addr / TWO_32);
    assert PutU64(e.len)[..4] == PutU32(e.len % TWO_32) && PutU64(e.len)[4..] == PutU32(e.len / TWO_32);
    hide PutU64;
    var s := PutDesc(e);
    assert s[..8] == PutU64(e.addr) && s[8..16] == PutU64(e.len);
    assert s[..4] == s[..8][..4] && s[4..8] == s[..8][4..] && s[8..12] == s[8..16][..4] && s[12..16] == s[8..16][4..];
  }

  lemma DescBack(e: Desc)
    requires e.addr < TWO_64 && e.len < TWO_64
    ensures GetDesc(PutDesc(e)) == e
  {
    hide PutU64, GetU64;
    U64Back(e.addr);
    U64Back(e.len);
    var s := PutDesc(e);
    assert s[..8] == PutU64(e.addr) && s[8..16] == PutU64(e.len);
  }

  function DescOf(e: Extent): Desc {
    Desc(e.addr, e.len, if e.tag then 1 else 0)
  }

  function DescsOf(layout: seq<Extent>): (ds: seq<Desc>)
    ensures |ds| == |layout| && forall k :: 0 <= k < |ds| ==> ds[k] == DescOf(layout[k])
  {
    seq(|layout|, k requires 0 <= k < |layout| => DescOf(layout[k]))
  }

  /** The extent table. */
  function Table(ds: seq<Desc>): (s: seq<u8>)
    ensures |s| == DESC_SIZE * |ds|
  {
    if ds == [] then [] else Table(ds[..|ds| - 1]) + PutDesc(ds[|ds| - 1])
  }

  function Decoded(body: seq<u8>, count: nat): (ds: seq<Desc>)
    requires DESC_SIZE * count <= |body|
    ensures |ds| == count
  {
    if count == 0 then []
    else Decoded(body, count - 1) + [GetDesc(body[DESC_SIZE * (count - 1)..DESC_SIZE * count])]
  }

  /** decode_extents(): a truncated table is refused. */
  function DecodeExtents(body: seq<u8>, count: nat): (ds: Option<seq<Desc>>) {
    if DESC_SIZE * count > |body| then None else Some(Decoded(body, count))
  }

  ghost predicate Small(ds: seq<Desc>) {
    forall k :: 0 <= k < |ds| ==> ds[k].addr < TWO_64 && ds[k].len < TWO_64
  }

  /** Whatever the bytes, what they decode to are 64-bit values. */
  lemma {:induction false} DecodedSmall(body: seq<u8>, count: nat)
    requires DESC_SIZE * count <= |body|
    ensures Small(Decoded(body, count))
  {
    hide GetU64;
    if count > 0 {
      DecodedSmall(body, count - 1);
      var s := body[DESC_SIZE * (count - 1)..DESC_SIZE * count];
      U64Bound(s[..8]);
      U64Bound(s[8..16]);
    }
  }

  lemma {:induction false} TableBack(ds: seq<Desc>, rest: seq<u8>)
    requires Small(ds)
    ensures Decoded(Table(ds) + rest, |ds|) == ds
  {
    hide PutDesc, GetDesc;
    if ds != [] {
      var init, e := ds[..|ds| - 1], ds[|ds| - 1];
      DescBack(e);
      TableBack(init, PutDesc(e) + rest);
      assert Table(ds) + rest == Table(init) + (PutDesc(e) + rest);
      assert (Table(ds) + rest)[DESC_SIZE * |init|..DESC_SIZE * |ds|] == PutDesc(e);
    }
  }

  // ---------------------------------------------------------------- the server's body

  lemma {:induction false} TableStarts(ds: seq<Desc>)
    requires ds != []
    ensures Table(ds)[..DESC_SIZE] == PutDesc(ds[0])
  {
    hide PutDesc;
    if |ds| > 1 {
      TableStarts(ds[..|ds| - 1]);
      assert Table(ds)[..DESC_SIZE] == Table(ds[..|ds| - 1])[..DESC_SIZE];
    } else {
      assert Table(ds[..0]) == [];
    }
  }

  lemma {:induction false} DecodedStarts(body: seq<u8>, count: nat)
    requires 0 < count && DESC_SIZE * count <= |body|
    ensures Decoded(body, count)[0] == GetDesc(body[..DESC_SIZE])
  {
    hide GetDesc;
    if count > 1 {
      DecodedStarts(body, count - 1);
    } else {
      assert Decoded(body, 0) == [];
    }
  }

  /** Whatever follows, the first descriptor comes back. */
  lemma FirstBack(ds: seq<Desc>, rest: seq<u8>)
    requires ds != [] && ds[0].addr < TWO_64 && ds[0].len < TWO_64
    ensures Decoded(Table(ds) + rest, |ds|)[0] == ds[0]
  {
    hide Table, Decoded, PutDesc, GetDesc;
    var body := Table(ds) + rest;
    TableStarts(ds);
    DecodedStarts(body, |ds|);
    assert body[..DESC_SIZE] == Table(ds)[..DESC_SIZE];
    DescBack(ds[0]);
  }

  /** The bytes of the data extents, packed in order. */
  function Packed(layout: seq<Extent>, addr: nat, data: seq<u8>): (s: seq<u8>)
    requires forall k :: 0 <= k < |layout| ==> addr <= layout[k].addr && layout[k].addr + layout[k].len <= addr + |data|
  {
    if layout == [] then []
    else
      var e := layout[|layout| - 1];
      Packed(layout[..|layout| - 1], addr, data)
      + (if e.tag then [] else data[e.addr - addr..e.addr - addr + e.len])
  }

  ghost predicate Fits(layout: seq<Extent>, addr: nat, n: nat) {
    forall k :: 0 <= k < |layout| ==> addr <= layout[k].addr && layout[k].addr + layout[k].len <= addr + n
  }

  /** on_read(): the table, then the packed bytes. */
  method BuildBody(layout: seq<Extent>, addr: nat, data: seq<u8>) returns (body: seq<u8>)
    requires Fits(layout, addr, |data|)
    ensures body == Table(DescsOf(layout)) + Packed(layout, addr, data)
  {
    hide PutDesc;
    body := [];
    for k := 0 to |layout|
      invariant body == Table(DescsOf(layout[..k]))
    {
      assert DescsOf(layout[..k + 1])[..k] == DescsOf(layout[..k]);
      body := body + PutDesc(DescOf(layout[k]));
    }
    assert layout[..|layout|] == layout;
    ghost var table := body;
    for k := 0 to |layout|
      invariant body == table + Packed(layout[..k], addr, data)
    {
      assert layout[..k + 1][..k] == layout[..k];
      var e := layout[k];
      if !e.tag { body := body + data[e.addr - addr..e.addr - addr + e.len]; }
    }
  }
}
