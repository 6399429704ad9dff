/** Cutting a range of blocks into pieces that share a tag. */
module Pieces {
  import Arith

  /** A sub-range and what its blocks have in common. */
  datatype Piece<+T> = Piece(addr: nat, len: nat, tag: T)

  /** The pieces lie end to end from `addr` to `addr + len`. */
  ghost predicate Tiles<T>(pieces: seq<Piece<T>>, addr: nat, len: nat) {
    && |pieces| > 0 && pieces[0].addr == addr
    && (forall k :: 0 <= k < |pieces| ==> pieces[k].len > 0)
    && (forall k :: 0 < k < |pieces| ==> pieces[k].addr == pieces[k - 1].addr + pieces[k - 1].len)
    && pieces[|pieces| - 1].addr + pieces[|pieces| - 1].len == addr + len
  }

  /** Every byte of the request falls in some piece. */
  lemma {:induction false} PieceOf<T>(pieces: seq<Piece<T>>, addr: nat, len: nat, y: nat) returns (k: nat)
    requires Tiles(pieces, addr, len) && addr <= y < addr + len
    ensures k < |pieces| && pieces[k].addr <= y < pieces[k].addr + pieces[k].len
  {
    k := 0;
    while y >= pieces[k].addr + pieces[k].len
      invariant k < |pieces| && pieces[k].addr <= y
      decreases |pieces| - k
    {
      k := k + 1;
    }
  }

  lemma PieceInside<T>(pieces: seq<Piece<T>>, addr: nat, len: nat, k: nat, y: nat)
    requires Tiles(pieces, addr, len) && k < |pieces| && pieces[k].addr <= y < pieces[k].addr + pieces[k].len
    ensures addr <= y < addr + len
  {
    assert pieces[k].addr >= addr by { PieceAbove(pieces, k); }
    assert pieces[k].addr + pieces[k].len <= addr + len by { PieceBelow(pieces, k); }
  }

  lemma {:induction false} PieceAbove<T>(pieces: seq<Piece<T>>, k: nat)
    requires k < |pieces|
    requires forall j :: 0 < j < |pieces| ==> pieces[j].addr == pieces[j - 1].addr + pieces[j - 1].len
    ensures pieces[0].addr <= pieces[k].addr
  {
    if k > 0 { PieceAbove(pieces, k - 1); }
  }

  lemma {:induction false} PieceBelow<T>(pieces: seq<Piece<T>>, k: nat)
    requires k < |pieces|
    requires forall j :: 0 < j < |pieces| ==> pieces[j].addr == pieces[j - 1].addr + pieces[j - 1].len
    ensures pieces[k].addr + pieces[k].len <= pieces[|pieces| - 1].addr + pieces[|pieces| - 1].len
    decreases |pieces| - k
  {
    if k < |pieces| - 1 { PieceBelow(pieces, k + 1); }
  }

  lemma {:induction false} PieceOrder<T>(pieces: seq<Piece<T>>, j: nat, k: nat)
    requires j < k < |pieces|
    requires forall i :: 0 < i < |pieces| ==> pieces[i].addr == pieces[i - 1].addr + pieces[i - 1].len
    ensures pieces[j].addr + pieces[j].len <= pieces[k].addr
  {
    if j < k - 1 { PieceOrder(pieces, j, k - 1); }
  }

  predicate InPiece<T>(g: Piece<T>, y: nat) {
    g.addr <= y < g.addr + g.len
  }

  /** Two cuts of a range that give every byte the same tag. */
  ghost predicate SameTags<T>(p: seq<Piece<T>>, q: seq<Piece<T>>) {
    forall k, j, y :: 0 <= k < |p| && 0 <= j < |q| && InPiece(p[k], y) && InPiece(q[j], y) ==> p[k].tag == q[j].tag
  }

  /** When neighbours differ, piece `k` starts in piece `k` or later of any other cut with the same tags. */
  lemma {:induction false} StartsIn<T>(p: seq<Piece<T>>, q: seq<Piece<T>>, addr: nat, len: nat, k: nat) returns (j: nat)
    requires Tiles(p, addr, len) && Tiles(q, addr, len) && SameTags(p, q) && k < |p|
    requires forall i :: 0 < i < |p| ==> p[i].tag != p[i - 1].tag
    ensures k <= j < |q| && q[j].addr <= p[k].addr < q[j].addr + q[j].len
  {
    PieceInside(p, addr, len, k, p[k].addr);
    j := PieceOf(q, addr, len, p[k].addr);
    if k > 0 {
      var i := StartsIn(p, q, addr, len, k - 1);
      if j < i {
        PieceOrder(q, j, i);
        assert false;
      }
      assert InPiece(p[k - 1], p[k - 1].addr) && InPiece(q[i], p[k - 1].addr);
      assert InPiece(p[k], p[k].addr) && InPiece(q[j], p[k].addr);
    }
  }

  /** No other cut with the same tags has fewer pieces. */
  lemma FewestPieces<T>(p: seq<Piece<T>>, q: seq<Piece<T>>, addr: nat, len: nat)
    requires Tiles(p, addr, len) && Tiles(q, addr, len) && SameTags(p, q)
    requires forall i :: 0 < i < |p| ==> p[i].tag != p[i - 1].tag
    ensures |p| <= |q|
  {
    var j := StartsIn(p, q, addr, len, |p| - 1);
  }

  /** The first byte of block `b`. */
  function BlockAt(addr: nat, lba: nat, b: nat): nat {
    addr + b * lba
  }

  /** Neighbouring blocks with the same tag share a piece. */
  function Coalesce<T(==)>(tags: seq<T>, addr: nat, lba: nat): (pieces: seq<Piece<T>>)
    requires |tags| > 0
    ensures |pieces| > 0 && pieces[|pieces| - 1].tag == tags[|tags| - 1]
  {
    var n := |tags| - 1;
    if n == 0 then [Piece(addr, lba, tags[0])]
    else
      var init := Coalesce(tags[..n], addr, lba);
      var last := init[|init| - 1];
      if last.tag == tags[n]
      then init[..|init| - 1] + [last.(len := last.len + lba)]
      else init + [Piece(BlockAt(addr, lba, n), lba, tags[n])]
  }

  /** One more block, on what the others were coalesced to. */
  lemma CoalesceStep<T>(tags: seq<T>, addr: nat, lba: nat)
    requires |tags| > 1
    ensures var n := |tags| - 1;
      var init := Coalesce(tags[..n], addr, lba);
      var last := init[|init| - 1];
      Coalesce(tags, addr, lba) ==
        if last.tag == tags[n] then init[..|init| - 1] + [last.(len := last.len + lba)]
        else init + [Piece(BlockAt(addr, lba, n), lba, tags[n])]
  {
  }

  /** More blocks never need fewer pieces. */
  lemma {:induction false} CoalesceGrows<T>(tags: seq<T>, addr: nat, lba: nat, n: nat)
    requires 0 < n <= |tags|
    ensures |Coalesce(tags[..n], addr, lba)| <= |Coalesce(tags, addr, lba)|
    decreases |tags|
  {
    if n == |tags| {
      assert tags[..n] == tags;
    } else {
      assert tags[..|tags| - 1][..n] == tags[..n];
      CoalesceGrows(tags[..|tags| - 1], addr, lba, n);
    }
  }

  ghost predicate PieceOk<T>(tags: seq<T>, addr: nat, lba: nat, g: Piece<T>)
    requires lba > 0
  {
    && g.addr % lba == 0 && g.len % lba == 0
    && forall b :: 0 <= b < |tags| && g.addr <= BlockAt(addr, lba, b) < g.addr + g.len ==> tags[b] == g.tag
  }

  /** An ordered, maximally coalesced partition in which every block has its own tag. */
  ghost predicate Grouped<T>(pieces: seq<Piece<T>>, tags: seq<T>, addr: nat, lba: nat)
    requires lba > 0
  {
    && Tiles(pieces, addr, |tags| * lba)
    && (forall k :: 0 <= k < |pieces| ==> PieceOk(tags, addr, lba, pieces[k]))
    && (forall k :: 0 < k < |pieces| ==> pieces[k].tag != pieces[k - 1].tag)
  }

  lemma AlignedSum(lba: nat, x: nat, y: nat)
    requires lba > 0 && x % lba == 0 && y % lba == 0
    ensures (x + y) % lba == 0
  {
    var a, b := Arith.Whole(lba, x), Arith.Whole(lba, y);
    assert lba * (a + b) == x + y;
    Arith.DivUnique(x + y, lba, a + b, 0);
  }

  lemma {:induction false} CoalesceGroups<T>(tags: seq<T>, addr: nat, lba: nat)
    requires |tags| > 0 && lba > 0 && addr % lba == 0
    ensures Grouped(Coalesce(tags, addr, lba), tags, addr, lba)
  {
    var n := |tags| - 1;
    if n == 0 {
      assert BlockAt(addr, lba, 0) == addr;
    } else {
      CoalesceGroups(tags[..n], addr, lba);
      GroupOneMore(Coalesce(tags[..n], addr, lba), Coalesce(tags, addr, lba), tags, addr, lba);
    }
  }

  /** One more block either lies behind a piece or extends it with its own tag. */
  lemma PieceGrows<T>(tags: seq<T>, addr: nat, lba: nat, g: Piece<T>, g': Piece<T>)
    requires |tags| > 1 && lba > 0 && PieceOk(tags[..|tags| - 1], addr, lba, g)
    requires g.addr + g.len <= BlockAt(addr, lba, |tags| - 1)
    requires g' == g || (g' == g.(len := g.len + lba) && g.tag == tags[|tags| - 1] && g'.len % lba == 0
                         && g.addr + g.len == BlockAt(addr, lba, |tags| - 1))
    ensures PieceOk(tags, addr, lba, g')
  {
    var n := |tags| - 1;
    forall b: nat | b < n ensures BlockAt(addr, lba, b) < BlockAt(addr, lba, n) { Arith.MulLess(lba, b, n); }
    forall b | 0 <= b < |tags| && g'.addr <= BlockAt(addr, lba, b) < g'.addr + g'.len ensures tags[b] == g'.tag {
      if b < n { assert tags[..n][b] == tags[b]; }
    }
  }

  lemma GroupOneMore<T>(init: seq<Piece<T>>, pieces: seq<Piece<T>>, tags: seq<T>, addr: nat, lba: nat)
    requires |tags| > 1 && lba > 0 && addr % lba == 0 && Grouped(init, tags[..|tags| - 1], addr, lba)
    requires var last, h := init[|init| - 1], tags[|tags| - 1];
      pieces == if last.tag == h then init[..|init| - 1] + [last.(len := last.len + lba)]
              else init + [Piece(BlockAt(addr, lba, |tags| - 1), lba, h)]
    ensures Grouped(pieces, tags, addr, lba)
  {
    hide BlockAt, PieceOk;
    NextBlock(addr, lba, |tags| - 1);
    forall k | 0 <= k < |pieces| ensures PieceOk(tags, addr, lba, pieces[k]) {
      if k < |init| { OldPiece(init, pieces, tags, addr, lba, k); } else { NewPiece(tags, addr, lba); }
    }
  }

  lemma NextBlock(addr: nat, lba: nat, n: nat)
    ensures BlockAt(addr, lba, n) == addr + n * lba && BlockAt(addr, lba, n) + lba == addr + (n + 1) * lba
  {
  }

  /** A piece of the shorter range, possibly extended by the new block. */
  lemma OldPiece<T>(init: seq<Piece<T>>, pieces: seq<Piece<T>>, tags: seq<T>, addr: nat, lba: nat, k: nat)
    requires |tags| > 1 && lba > 0 && addr % lba == 0 && Grouped(init, tags[..|tags| - 1], addr, lba)
    requires k < |init| && k < |pieces|
    requires pieces[k] == init[k] || (k == |init| - 1 && init[k].tag == tags[|tags| - 1]
                                      && pieces[k] == init[k].(len := init[k].len + lba))
    ensures PieceOk(tags, addr, lba, pieces[k])
  {
    hide BlockAt;
    var n := |tags| - 1;
    NextBlock(addr, lba, n);
    assert PieceOk(tags[..n], addr, lba, init[k]);
    PieceBelow(init, k);
    Arith.SelfAligned(lba);
    AlignedSum(lba, init[k].len, lba);
    PieceGrows(tags, addr, lba, init[k], pieces[k]);
  }

  /** The new block on its own. */
  lemma NewPiece<T>(tags: seq<T>, addr: nat, lba: nat)
    requires |tags| > 1 && lba > 0 && addr % lba == 0
    ensures PieceOk(tags, addr, lba, Piece(BlockAt(addr, lba, |tags| - 1), lba, tags[|tags| - 1]))
  {
    var n := |tags| - 1;
    Arith.SelfAligned(lba);
    Arith.MultipleAligned(lba, n);
    AlignedSum(lba, addr, n * lba);
    forall b: nat | b < n ensures BlockAt(addr, lba, b) < BlockAt(addr, lba, n) { Arith.MulLess(lba, b, n); }
    hide BlockAt;
  }

  /** The block a byte of the range falls in. */
  lemma BlockOf(addr: nat, lba: nat, n: nat, y: nat) returns (b: nat)
    requires lba > 0 && addr % lba == 0 && addr <= y < addr + n * lba
    ensures b < n && BlockAt(addr, lba, b) / lba == y / lba
  {
    var a := Arith.Whole(lba, addr);
    Arith.MulDiv(lba, a + n);
    assert lba * (a + n) == addr + n * lba;
    var q := y / lba;
    assert y == lba * q + y % lba;
    assert a <= q < a + n by {
      if q < a { Arith.MulMono(lba, q, a); }
      if q >= a + n { Arith.MulMono(lba, a + n, q); }
    }
    b := q - a;
    assert BlockAt(addr, lba, b) == lba * q;
    Arith.MulDiv(lba, q);
  }
}
