/** The client's side of a sparse read reply: plan the scatter, then rebuild the destination. */
module Scatter {
  import opened CraftTypes
  import opened SparseReply

  /** Where bytes go: an offset into the destination and a length. */
  type Target = (nat, nat)

  /** The extent lies inside the request, in 64-bit arithmetic that wraps. */
  predicate InRange(e: Desc, reqAddr: nat, reqLen: nat) {
    var eEnd, reqEnd := (e.addr + e.len) % TWO_64, (reqAddr + reqLen) % TWO_64;
    !(eEnd < e.addr || e.addr < reqAddr || eEnd > reqEnd)
  }

  /** Whatever 64-bit values arrive, an extent that passes stays inside the destination. */
  lemma ScatterInBounds(e: Desc, reqAddr: nat, reqLen: nat)
    requires e.addr < TWO_64 && e.len < TWO_64 && reqAddr < TWO_64 && reqLen < TWO_64
    requires InRange(e, reqAddr, reqLen)
    ensures reqAddr <= e.addr && e.addr - reqAddr + e.len <= reqLen
  {
    WrapOnce(e.addr + e.len);
    WrapOnce(reqAddr + reqLen);
  }

  lemma WrapOnce(n: nat)
    requires n < 2 * TWO_64
    ensures n % TWO_64 == if n < TWO_64 then n else n - TWO_64
  {
  }

  function TargetsOf(es: seq<Desc>, reqAddr: nat, hole: bool): (ts: seq<Target>)
    requires forall k :: 0 <= k < |es| ==> reqAddr <= es[k].addr
  {
    if es == [] then []
    else
      var e := es[|es| - 1];
      TargetsOf(es[..|es| - 1], reqAddr, hole)
      + (if (e.hole != 0) == hole then [(e.addr - reqAddr, e.len)] else [])
  }

  /** plan_scatter(): split the extents into data and hole targets, or refuse. */
  method PlanScatter(es: seq<Desc>, reqAddr: nat, reqLen: nat) returns (ok: bool, data: seq<Target>, holes: seq<Target>)
    ensures ok <==> forall k :: 0 <= k < |es| ==> InRange(es[k], reqAddr, reqLen)
    ensures ok ==> (forall k :: 0 <= k < |es| ==> reqAddr <= es[k].addr)
    ensures ok ==> data == TargetsOf(es, reqAddr, false) && holes == TargetsOf(es, reqAddr, true)
  {
    ok, data, holes := false, [], [];
    for k := 0 to |es|
      invariant forall j :: 0 <= j < k ==> InRange(es[j], reqAddr, reqLen) && reqAddr <= es[j].addr
      invariant data == TargetsOf(es[..k], reqAddr, false) && holes == TargetsOf(es[..k], reqAddr, true)
    {
      assert es[..k + 1][..k] == es[..k];
      var e := es[k];
      if !InRange(e, reqAddr, reqLen) { return; }
      if e.hole != 0 {
        holes := holes + [(e.addr - reqAddr, e.len)];
      } else {
        data := data + [(e.addr - reqAddr, e.len)];
      }
    }
    assert es[..|es|] == es;
    ok := true;
  }

  // ---------------------------------------------------------------- scattering

  ghost predicate Inside(ts: seq<Target>, n: nat) {
    forall k :: 0 <= k < |ts| ==> ts[k].0 + ts[k].1 <= n
  }

  predicate Hit(ts: seq<Target>, p: nat) {
    exists k :: 0 <= k < |ts| && ts[k].0 <= p < ts[k].0 + ts[k].1
  }

  function Size(ts: seq<Target>): nat {
    if ts == [] then 0 else Size(ts[..|ts| - 1]) + ts[|ts| - 1].1
  }

  /** The slices of `image` the targets name, end to end. */
  function Slices(ts: seq<Target>, image: seq<u8>): (s: seq<u8>)
    requires forall k :: 0 <= k < |ts| ==> ts[k].0 + ts[k].1 <= |image|
  {
    if ts == [] then []
    else Slices(ts[..|ts| - 1], image) + image[ts[|ts| - 1].0..ts[|ts| - 1].0 + ts[|ts| - 1].1]
  }

  lemma {:induction false} SlicesSize(ts: seq<Target>, image: seq<u8>)
    requires Inside(ts, |image|)
    ensures |Slices(ts, image)| == Size(ts)
  {
    if ts != [] { SlicesSize(ts[..|ts| - 1], image); }
  }

  method CopyIn(dest: array<u8>, at: nat, src: seq<u8>)
    requires at + |src| <= dest.Length
    modifies dest
    ensures forall p :: 0 <= p < dest.Length ==>
      dest[p] == if at <= p < at + |src| then src[p - at] else old(dest[p])
  {
    for k := 0 to |src|
      invariant forall p :: 0 <= p < dest.Length ==>
        dest[p] == if at <= p < at + k then src[p - at] else old(dest[p])
    {
      dest[at + k] := src[k];
    }
  }

  method ClearIn(dest: array<u8>, at: nat, n: nat)
    requires at + n <= dest.Length
    modifies dest
    ensures forall p :: 0 <= p < dest.Length ==> dest[p] == if at <= p < at + n then 0 else old(dest[p])
  {
    for k := 0 to n
      invariant forall p :: 0 <= p < dest.Length ==> dest[p] == if at <= p < at + k then 0 else old(dest[p])
    {
      dest[at + k] := 0;
    }
  }

  lemma HitNext(ts: seq<Target>, k: nat, p: nat)
    requires k < |ts|
    ensures Hit(ts[..k + 1], p) <==> Hit(ts[..k], p) || ts[k].0 <= p < ts[k].0 + ts[k].1
  {
    if Hit(ts[..k + 1], p) {
      var j :| 0 <= j < k + 1 && ts[..k + 1][j].0 <= p < ts[..k + 1][j].0 + ts[..k + 1][j].1;
      if j < k { assert ts[..k][j] == ts[j]; }
    }
    if Hit(ts[..k], p) {
      var j :| 0 <= j < k && ts[..k][j].0 <= p < ts[..k][j].0 + ts[..k][j].1;
      assert ts[..k + 1][j] == ts[j];
    }
    if ts[k].0 <= p < ts[k].0 + ts[k].1 { assert ts[..k + 1][k] == ts[k]; }
  }

  lemma {:induction false} SlicesPrefix(ts: seq<Target>, k: nat, image: seq<u8>)
    requires k <= |ts| && Inside(ts, |image|)
    ensures Slices(ts[..k], image) <= Slices(ts, image)
    decreases |ts|
  {
    if k == |ts| {
      assert ts[..k] == ts;
    } else {
      assert ts[..|ts| - 1][..k] == ts[..k];
      SlicesPrefix(ts[..|ts| - 1], k, image);
    }
  }

  /** One data target of the scatter, against the image the packed bytes were taken from. */
  lemma PackedNext(ts: seq<Target>, k: nat, image: seq<u8>, packed: seq<u8>)
    requires k < |ts| && Inside(ts, |image|) && packed == Slices(ts, image)
    ensures Size(ts[..k]) + ts[k].1 == Size(ts[..k + 1]) <= |packed|
    ensures packed[Size(ts[..k])..Size(ts[..k]) + ts[k].1] == image[ts[k].0..ts[k].0 + ts[k].1]
  {
    SliceNext(ts, k, image);
    hide Slices, Size, Inside;
    SlicesPrefix(ts, k + 1, image);
    PartOf(Slices(ts[..k], image), image[ts[k].0..ts[k].0 + ts[k].1], packed);
  }

  /** One more target: its slice comes next, and its size is added. */
  lemma SliceNext(ts: seq<Target>, k: nat, image: seq<u8>)
    requires k < |ts| && Inside(ts, |image|)
    ensures Inside(ts[..k], |image|) && Inside(ts[..k + 1], |image|) && ts[k].0 + ts[k].1 <= |image|
    ensures Slices(ts[..k + 1], image) == Slices(ts[..k], image) + image[ts[k].0..ts[k].0 + ts[k].1]
    ensures Size(ts[..k]) + ts[k].1 == Size(ts[..k + 1]) && |Slices(ts[..k], image)| == Size(ts[..k])
  {
    assert ts[..k + 1][..k] == ts[..k];
    SlicesSize(ts[..k], image);
  }

  lemma PartOf(a: seq<u8>, b: seq<u8>, all: seq<u8>)
    requires a + b <= all
    ensures |a| + |b| <= |all| && all[|a|..|a| + |b|] == b
  {
    assert all[..|a| + |b|] == a + b;
  }

  /** Copy the packed bytes to the data targets in order; a body shorter than claimed is refused. */
  method ScatterData(dest: array<u8>, ts: seq<Target>, packed: seq<u8>, ghost image: seq<u8>) returns (ok: bool)
    requires Inside(ts, dest.Length)
    modifies dest
    ensures ok <==> Size(ts) <= |packed|
    ensures forall p :: 0 <= p < dest.Length && !Hit(ts, p) ==> dest[p] == old(dest[p])
    ensures Inside(ts, |image|) && packed == Slices(ts, image) ==>
      ok && forall p :: 0 <= p < dest.Length && p < |image| && Hit(ts, p) ==> dest[p] == image[p]
  {
    hide Slices, Size, Hit;
    ghost var honest := Inside(ts, |image|) && packed == Slices(ts, image);
    var src := 0;
    NoSize(ts);
    NoHit(ts);
    for k := 0 to |ts|
      invariant src == Size(ts[..k]) <= |packed|
      invariant forall p :: 0 <= p < dest.Length && !Hit(ts, p) ==> dest[p] == old(dest[p])
      invariant honest ==> forall p :: 0 <= p < dest.Length && p < |image| && Hit(ts[..k], p) ==> dest[p] == image[p]
    {
      var (at, n) := ts[k];
      if honest { PackedNext(ts, k, image, packed); }
      SizeNext(ts, k);
      SizeGrows(ts, k + 1);
      if src + n > |packed| { return false; }
      forall p: nat | p < dest.Length
        ensures Hit(ts[..k + 1], p) <==> Hit(ts[..k], p) || at <= p < at + n
        ensures at <= p < at + n ==> Hit(ts, p)
      {
        HitNext(ts, k, p);
        if at <= p < at + n { HitAt(ts, k, p); }
      }
      CopyIn(dest, at, packed[src..src + n]);
      src := src + n;
    }
    assert ts[..|ts|] == ts;
    return true;
  }

  lemma HitAt(ts: seq<Target>, k: nat, p: nat)
    requires k < |ts| && ts[k].0 <= p < ts[k].0 + ts[k].1
    ensures Hit(ts, p)
  {
  }

  lemma NoHit(ts: seq<Target>)
    ensures forall p: nat :: !Hit(ts[..0], p)
  {
  }

  lemma SizeNext(ts: seq<Target>, k: nat)
    requires k < |ts|
    ensures Size(ts[..k + 1]) == Size(ts[..k]) + ts[k].1
  {
    assert ts[..k + 1][..k] == ts[..k];
  }

  lemma {:induction false} SizeGrows(ts: seq<Target>, k: nat)
    requires k <= |ts|
    ensures Size(ts[..k]) <= Size(ts)
    decreases |ts| - k
  {
    if k == |ts| {
      assert ts[..k] == ts;
    } else {
      SizeNext(ts, k);
      SizeGrows(ts, k + 1);
    }
  }

  lemma NoSize(ts: seq<Target>)
    ensures Size(ts[..0]) == 0
  {
  }

  /** Zero the holes. */
  method ScatterHoles(dest: array<u8>, ts: seq<Target>)
    requires Inside(ts, dest.Length)
    modifies dest
    ensures forall p :: 0 <= p < dest.Length ==> dest[p] == if Hit(ts, p) then 0 else old(dest[p])
  {
    for k := 0 to |ts|
      invariant forall p :: 0 <= p < dest.Length ==> dest[p] == if Hit(ts[..k], p) then 0 else old(dest[p])
    {
      forall p: nat | p < dest.Length
        ensures Hit(ts[..k + 1], p) <==> Hit(ts[..k], p) || ts[k].0 <= p < ts[k].0 + ts[k].1
      {
        HitNext(ts, k, p);
      }
      ClearIn(dest, ts[k].0, ts[k].1);
    }
    assert ts[..|ts|] == ts;
  }

  // ---------------------------------------------------------------- the whole reply

  /** `es` cover [addr, addr + |image|), and what they call a hole is zero in the image. */
  ghost predicate Describes(es: seq<Desc>, addr: nat, image: seq<u8>) {
    && (forall k :: 0 <= k < |es| ==> addr <= es[k].addr && es[k].addr + es[k].len <= addr + |image|)
    && (forall p: nat :: p < |image| ==> Hit(TargetsAll(es, addr), p))
    && (forall p: nat :: p < |image| && Hit(TargetsOf(es, addr, true), p) ==> image[p] == 0)
  }

  function TargetsAll(es: seq<Desc>, addr: nat): (ts: seq<Target>)
    requires forall k :: 0 <= k < |es| ==> addr <= es[k].addr
    ensures |ts| == |es| && forall k :: 0 <= k < |es| ==> ts[k] == (es[k].addr - addr, es[k].len)
  {
    seq(|es|, k requires 0 <= k < |es| => (es[k].addr - addr, es[k].len))
  }

  lemma {:induction false} DataOrHole(es: seq<Desc>, addr: nat, p: nat)
    requires forall k :: 0 <= k < |es| ==> addr <= es[k].addr
    ensures Hit(TargetsAll(es, addr), p) <==> Hit(TargetsOf(es, addr, false), p) || Hit(TargetsOf(es, addr, true), p)
  {
    if es == [] {
    } else {
      var init, e := es[..|es| - 1], es[|es| - 1];
      DataOrHole(init, addr, p);
      HitLast(TargetsAll(init, addr), (e.addr - addr, e.len), p);
      HitLast(TargetsOf(init, addr, false), (e.addr - addr, e.len), p);
      HitLast(TargetsOf(init, addr, true), (e.addr - addr, e.len), p);
      assert TargetsAll(es, addr) == TargetsAll(init, addr) + [(e.addr - addr, e.len)];
      assert TargetsOf(init, addr, false) + [] == TargetsOf(init, addr, false);
      assert TargetsOf(init, addr, true) + [] == TargetsOf(init, addr, true);
    }
  }

  lemma HitLast(ts: seq<Target>, t: Target, p: nat)
    ensures Hit(ts + [t], p) <==> Hit(ts, p) || t.0 <= p < t.0 + t.1
  {
    assert (ts + [t])[..|ts|] == ts && (ts + [t])[..|ts| + 1] == ts + [t];
    HitNext(ts + [t], |ts|, p);
  }

  lemma {:induction false} TargetsInside(es: seq<Desc>, addr: nat, hole: bool, n: nat)
    requires forall k :: 0 <= k < |es| ==> addr <= es[k].addr && es[k].addr - addr + es[k].len <= n
    ensures Inside(TargetsOf(es, addr, hole), n)
  {
    if es != [] { TargetsInside(es[..|es| - 1], addr, hole, n); }
  }

  datatype Outcome = Filled | Malformed

  /** Both passes over the destination. */
  method FillTargets(packed: seq<u8>, data: seq<Target>, holes: seq<Target>, len: nat, dest: array<u8>,
                     ghost image: seq<u8>)
    returns (r: Outcome)
    requires len <= dest.Length && Inside(data, len) && Inside(holes, len)
    modifies dest
    ensures forall p :: len <= p < dest.Length ==> dest[p] == old(dest[p])
    ensures r == Filled <==> Size(data) <= |packed|
    ensures Covered(packed, data, holes, len, image) ==> r == Filled && dest[..len] == image
  {
    hide Slices, Size;
    forall p: nat | p >= len ensures !Hit(data, p) && !Hit(holes, p) { }
    var ok := ScatterData(dest, data, packed, image);
    if !ok { return Malformed; }
    ScatterHoles(dest, holes);
    return Filled;
  }

  /** The packed bytes come from `image`, every byte has a target, and the holes are zero. */
  ghost predicate Covered(packed: seq<u8>, data: seq<Target>, holes: seq<Target>, len: nat, image: seq<u8>) {
    && |image| == len && Inside(data, |image|) && packed == Slices(data, image)
    && (forall p: nat :: p < len ==> Hit(data, p) || Hit(holes, p))
    && (forall p: nat :: p < len && Hit(holes, p) ==> image[p] == 0)
  }

  lemma DescribedInRange(es: seq<Desc>, addr: nat, len: nat)
    requires addr + len < TWO_64
    requires forall k :: 0 <= k < |es| ==> addr <= es[k].addr && es[k].addr + es[k].len <= addr + len
    ensures forall k :: 0 <= k < |es| ==> InRange(es[k], addr, len)
  {
  }

  /** Descriptors that pass the plan stay inside the destination. */
  lemma PlannedInside(es: seq<Desc>, addr: nat, len: nat)
    requires Small(es) && addr < TWO_64 && len < TWO_64
    requires forall k :: 0 <= k < |es| ==> InRange(es[k], addr, len) && addr <= es[k].addr
    ensures Inside(TargetsOf(es, addr, false), len) && Inside(TargetsOf(es, addr, true), len)
  {
    hide InRange;
    forall k | 0 <= k < |es| ensures es[k].addr - addr + es[k].len <= len { ScatterInBounds(es[k], addr, len); }
    TargetsInside(es, addr, false, len);
    TargetsInside(es, addr, true, len);
  }

  /** What an honest reply gives the two passes. */
  lemma HonestCovers(body: seq<u8>, count: nat, addr: nat, len: nat, es: seq<Desc>, image: seq<u8>)
    requires Honest(body, count, addr, len, es, image)
    ensures DESC_SIZE * count <= |body| && Decoded(body, count) == es
    ensures forall k :: 0 <= k < |es| ==> InRange(es[k], addr, len)
    ensures Covered(body[DESC_SIZE * count..], TargetsOf(es, addr, false), TargetsOf(es, addr, true), len, image)
  {
    hide Decoded, Slices, InRange, TargetsOf;
    TableBack(es, Slices(TargetsOf(es, addr, false), image));
    DescribedInRange(es, addr, len);
    forall p: nat | p < len ensures Hit(TargetsOf(es, addr, false), p) || Hit(TargetsOf(es, addr, true), p) {
      DataOrHole(es, addr, p);
    }
    assert body[DESC_SIZE * count..] == Slices(TargetsOf(es, addr, false), image);
  }

  /** The table is whole and every extent is inside the request. */
  predicate Plannable(body: seq<u8>, count: nat, addr: nat, len: nat) {
    && DESC_SIZE * count <= |body|
    && (forall k :: 0 <= k < count ==> InRange(Decoded(body, count)[k], addr, len))
  }

  /** And the packed bytes are all there. */
  predicate Acceptable(body: seq<u8>, count: nat, addr: nat, len: nat) {
    && Plannable(body, count, addr, len)
    && Size(TargetsOf(Decoded(body, count), addr, false)) <= |body| - DESC_SIZE * count
  }

  /** No extent that starts at the request is in range when the request runs past 2^64. */
  lemma PastTheEnd(e: Desc, reqAddr: nat, reqLen: nat)
    requires e.addr == reqAddr < TWO_64 && e.len < TWO_64 && reqLen < TWO_64 <= reqAddr + reqLen
    ensures !InRange(e, reqAddr, reqLen)
  {
    WrapOnce(e.addr + e.len);
    WrapOnce(reqAddr + reqLen);
  }

  /**
   * wire_client::read(): decode the table, plan the scatter, fill the destination. Whatever
   * the body says, nothing outside [0, len) is touched; and a body built from an honest
   * description of `image` rebuilds it byte for byte.
   */
  method FillFromReply(body: seq<u8>, count: nat, addr: nat, len: nat, dest: array<u8>, ghost es: seq<Desc>,
                       ghost image: seq<u8>)
    returns (r: Outcome)
    requires len <= dest.Length && addr < TWO_64 && len < TWO_64
    modifies dest
    ensures r == Filled <==> Acceptable(body, count, addr, len)
    ensures !Plannable(body, count, addr, len) ==> dest[..] == old(dest[..])
    ensures forall p :: len <= p < dest.Length ==> dest[p] == old(dest[p])
    ensures Honest(body, count, addr, len, es, image) ==> r == Filled && dest[..len] == image
  {
    hide Honest, Covered, Table, Decoded, TargetsOf, InRange, Size;
    ghost var honest := Honest(body, count, addr, len, es, image);
    if honest { HonestCovers(body, count, addr, len, es, image); }
    var decoded := DecodeExtents(body, count);
    if decoded.None? { return Malformed; }
    var ok, data, holes := PlanScatter(decoded.value, addr, len);
    if !ok { return Malformed; }
    DecodedSmall(body, count);
    PlannedInside(decoded.value, addr, len);
    r := FillTargets(body[DESC_SIZE * count..], data, holes, len, dest, image);
  }

  ghost predicate Honest(body: seq<u8>, count: nat, addr: nat, len: nat, es: seq<Desc>, image: seq<u8>) {
    && Small(es) && count == |es| && len == |image| && addr + len < TWO_64 && Describes(es, addr, image)
    && Inside(TargetsOf(es, addr, false), |image|)
    && body == Table(es) + Slices(TargetsOf(es, addr, false), image)
  }
}
