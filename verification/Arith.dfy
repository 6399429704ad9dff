/** Division facts used wherever bytes are counted in blocks. */
module Arith {

  lemma MulMono(p: nat, a: int, b: int)
    requires a <= b
    ensures p * a <= p * b
    ensures a < b ==> p * a + p <= p * b
    decreases b - a
  {
    if a < b {
      MulMono(p, a + 1, b);
      assert p * (a + 1) == p * a + p;
    }
  }

  lemma DivUnique(n: int, p: nat, q: int, r: int)
    requires p > 0 && n == p * q + r && 0 <= r < p
    ensures n / p == q && n % p == r
  {
    var q', r' := n / p, n % p;
    assert n == p * q' + r';
    if q < q' { MulMono(p, q, q'); assert false; }
    if q' < q { MulMono(p, q', q); assert false; }
  }

  lemma DivStep(n: int, p: nat)
    requires p > 0
    ensures (n + p) / p == n / p + 1 && (n + p) % p == n % p
  {
    assert p * (n / p + 1) == p * (n / p) + p;
    DivUnique(n + p, p, n / p + 1, n % p);
  }

  /** For block-aligned bounds, a byte lies in a range exactly when its block does. */
  lemma BlockOfByte(p: nat, addr: nat, len: nat, y: nat)
    requires p > 0 && addr % p == 0 && len % p == 0
    ensures addr <= y < addr + len <==> addr / p <= y / p < addr / p + len / p
  {
    var a, l, b := addr / p, len / p, y / p;
    assert addr == p * a && len == p * l && y == p * b + y % p;
    assert p * (a + l) == p * a + p * l;
    if a <= b { MulMono(p, a, b); } else { MulMono(p, b, a); }
    if b < a + l { MulMono(p, b, a + l); } else { MulMono(p, a + l, b); }
  }

  /** How far byte `y` lies into a range that starts on a block boundary. */
  lemma OffsetInBlock(p: nat, addr: nat, y: nat)
    requires p > 0 && addr % p == 0
    ensures p * (y / p - addr / p) + y % p == y - addr
  {
    var a, b := addr / p, y / p;
    assert addr == p * a && y == p * b + y % p;
    assert p * (b - a) == p * b - p * a;
  }

  lemma MulDiv(p: nat, a: int)
    requires p > 0
    ensures (p * a) / p == a && (p * a + p - 1) / p == a
  {
    DivUnique(p * a, p, a, 0);
    DivUnique(p * a + p - 1, p, a, p - 1);
  }

  lemma Distribute(p: nat, a: int, b: int)
    ensures p * (a + b) == p * a + p * b
  {
  }

  /** Where byte `n` of a range starting at block `a` lies in its block `b`. */
  lemma OffsetOf(p: nat, a: nat, b: nat, n: nat)
    requires p > 0 && (p * (a + b)) / p == (p * a + n) / p
    ensures n == p * b + n % p
  {
    var q, r := n / p, n % p;
    Distribute(p, a, q);
    DivUnique(p * a + n, p, a + q, r);
    MulDiv(p, a + b);
  }

  lemma ByteOffset(p: nat, addr: nat, b: nat, n: nat)
    requires p > 0 && addr % p == 0 && (addr + b * p) / p == (addr + n) / p
    ensures n == p * b + n % p
  {
    var a := addr / p;
    assert addr == p * a;
    Distribute(p, a, b);
    assert addr + b * p == p * (a + b);
    OffsetOf(p, a, b, n);
  }

  /** Comparing multiples of `p` is comparing the factors. */
  lemma MulLess(p: nat, a: int, b: int)
    requires p > 0
    ensures p * a <= p * b <==> a <= b
    ensures p * a < p * b <==> a < b
  {
    if a <= b { MulMono(p, a, b); } else { MulMono(p, b, a); }
  }

  /** Block `b` of a range starting at block `a` lies in blocks [s, s + l). */
  lemma BlockInside(p: nat, a: nat, s: nat, l: nat, b: int)
    requires p > 0
    ensures p * s <= p * a + b * p < p * s + p * l <==> s <= a + b < s + l
  {
    assert p * (a + b) == p * a + b * p && p * (s + l) == p * s + p * l;
    MulLess(p, s, a + b);
    MulLess(p, a + b, s + l);
  }

  /** First and last block a range ending below block `hi` and starting at block `lo` has, counted from block `a`. */
  lemma BlockBounds(p: nat, a: nat, lo: nat, hi: nat)
    requires p > 0 && a <= lo < hi
    ensures (p * lo - p * a) / p == lo - a && (p * hi - 1 - p * a) / p == hi - a - 1
  {
    assert p * (lo - a) == p * lo - p * a && p * (hi - a - 1) + p - 1 == p * hi - 1 - p * a;
    MulDiv(p, lo - a);
    MulDiv(p, hi - a - 1);
  }

  function Larger(x: nat, y: nat): nat {
    if x >= y then x else y
  }

  function Smaller(x: nat, y: nat): nat {
    if x <= y then x else y
  }

  lemma ScaleBounds(p: nat, x: nat, y: nat)
    requires p > 0
    ensures Larger(p * x, p * y) == p * Larger(x, y) && Smaller(p * x, p * y) == p * Smaller(x, y)
  {
    MulLess(p, x, y);
    MulLess(p, y, x);
  }

  /** The first block, counted from `addr`, of what two ranges share. */
  function FirstShared(p: nat, addr: nat, saddr: nat): int
    requires p > 0
  {
    (Larger(addr, saddr) - addr) / p
  }

  /** The last block, counted from `addr`, of what two ranges with these ends share. */
  function LastShared(p: nat, addr: nat, end: nat, send: nat): int
    requires p > 0
  {
    (Smaller(end, send) - 1 - addr) / p
  }

  lemma ScaledBounds(p: nat, a: nat, n: nat, s: nat, l: nat)
    requires p > 0 && n > 0 && l > 0 && a < s + l && s < a + n
    ensures FirstShared(p, p * a, p * s) == Larger(a, s) - a
    ensures LastShared(p, p * a, p * a + p * n, p * s + p * l) == Smaller(a + n, s + l) - a - 1
  {
    assert p * (a + n) == p * a + p * n && p * (s + l) == p * s + p * l;
    ScaleBounds(p, a, s);
    ScaleBounds(p, a + n, s + l);
    BlockBounds(p, a, Larger(a, s), Smaller(a + n, s + l));
  }

  lemma ScaledOverlap(p: nat, a: nat, n: nat, s: nat, l: nat)
    requires p > 0 && p * n > 0 && p * l > 0 && p * a < p * s + p * l && p * s < p * a + p * n
    ensures n > 0 && l > 0 && a < s + l && s < a + n
  {
    assert p * (a + n) == p * a + p * n && p * (s + l) == p * s + p * l;
    MulLess(p, a, s + l);
    MulLess(p, s, a + n);
    MulLess(p, 0, n);
    MulLess(p, 0, l);
  }

  lemma ScaledBlocks(p: nat, a: nat, n: nat, s: nat, l: nat, b: int)
    requires p > 0 && n > 0 && l > 0 && a < s + l && s < a + n && 0 <= b < n
    ensures var b0, b1 := FirstShared(p, p * a, p * s), LastShared(p, p * a, p * a + p * n, p * s + p * l);
      && 0 <= b0 <= b1 < n
      && (b0 <= b <= b1 <==> p * s <= p * a + b * p < p * s + p * l)
  {
    ScaledBounds(p, a, n, s, l);
    BlockInside(p, a, s, l, b);
  }

  function Whole(p: nat, x: nat): (q: nat)
    requires p > 0 && x % p == 0
    ensures x == p * q && q == x / p
  {
    x / p
  }

  /** The blocks of an aligned range that another aligned range touches. */
  lemma TouchedBlocks(p: nat, addr: nat, len: nat, saddr: nat, slen: nat, b: int)
    requires p > 0 && addr % p == 0 && len % p == 0 && saddr % p == 0 && slen % p == 0
    requires len > 0 && slen > 0 && addr < saddr + slen && saddr < addr + len && 0 <= b < len / p
    ensures var b0, b1 := FirstShared(p, addr, saddr), LastShared(p, addr, addr + len, saddr + slen);
      && 0 <= b0 <= b1 < len / p
      && (b0 <= b <= b1 <==> saddr <= addr + b * p < saddr + slen)
  {
    hide FirstShared, LastShared;
    var a, n, s, l := Whole(p, addr), Whole(p, len), Whole(p, saddr), Whole(p, slen);
    ScaledOverlap(p, a, n, s, l);
    ScaledBlocks(p, a, n, s, l, b);
  }

  /** A number at most one modulus below zero. */
  lemma ModOnce(n: int, m: nat)
    requires m > 0 && 0 <= n + m && n < m
    ensures n % m == if n < 0 then n + m else n
  {
    if n < 0 { DivUnique(n, m, -1, n + m); } else { DivUnique(n, m, 0, n); }
  }

  lemma SelfAligned(p: nat)
    requires p > 0
    ensures p % p == 0
  {
    DivUnique(p, p, 1, 0);
  }

  lemma MultipleAligned(p: nat, a: int)
    requires p > 0
    ensures (a * p) % p == 0
  {
    DivUnique(a * p, p, a, 0);
  }
}
