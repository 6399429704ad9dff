/** CRC32C (Castagnoli), section 12.1 of RFC 3720: the table-driven loop and the shift register it replaces. */
module Crc32c {
  import opened CraftTypes

  const POLY: bv32 := 0x82F63B78
  const ONES: bv32 := 0xFFFFFFFF

  /** One step of the reflected shift register. */
  function Shift(c: bv32): bv32 {
    if c & 1 == 1 then POLY ^ (c >> 1) else c >> 1
  }

  function Shifts(c: bv32, k: nat): bv32 {
    if k == 0 then c else Shift(Shifts(c, k - 1))
  }

  /** The register with a byte mixed into its low end. */
  function Mix(c: bv32, b: u8): bv32 {
    c ^ (b as bv32)
  }

  /** Feed one byte, bit by bit. */
  function Feed(c: bv32, b: u8): bv32 {
    Shifts(Mix(c, b), 8)
  }

  function Register(c: bv32, data: seq<u8>): bv32 {
    if data == [] then c else Feed(Register(c, data[..|data| - 1]), data[|data| - 1])
  }

  /** The digest of a byte string: register preset to ones, result complemented. */
  function Digest(data: seq<u8>): bv32 {
    !Register(ONES, data)
  }

  // ---------------------------------------------------------------- one step is linear and reversible

  lemma XorShift(a: bv32, b: bv32)
    ensures (a ^ b) >> 1 == (a >> 1) ^ (b >> 1)
    ensures (a ^ b) & 1 == (a & 1) ^ (b & 1)
    ensures a & 1 == 0 || a & 1 == 1
  {
  }

  lemma XorRegroup(p: bv32, x: bv32, y: bv32)
    ensures (p ^ x) ^ (p ^ y) == x ^ y
    ensures (p ^ x) ^ y == p ^ (x ^ y)
    ensures x ^ (p ^ y) == p ^ (x ^ y)
  {
  }

  function Xor(a: bv32, b: bv32): bv32 {
    a ^ b
  }

  lemma ShiftXor(a: bv32, b: bv32)
    ensures Shift(a ^ b) == Shift(a) ^ Shift(b)
  {
    XorShift(a, b);
    XorShift(b, a);
    XorRegroup(POLY, a >> 1, b >> 1);
  }

  lemma ShiftLinear(a: bv32, b: bv32)
    ensures Shift(Xor(a, b)) == Xor(Shift(a), Shift(b))
  {
    hide Shift;
    ShiftXor(a, b);
  }

  lemma {:induction false} ShiftsLinear(a: bv32, b: bv32, k: nat)
    ensures Shifts(Xor(a, b), k) == Xor(Shifts(a, k), Shifts(b, k))
  {
    hide Shift, Xor;
    if k > 0 {
      ShiftsLinear(a, b, k - 1);
      ShiftLinear(Shifts(a, k - 1), Shifts(b, k - 1));
    }
  }

  lemma ShiftInjective(a: bv32, b: bv32)
    requires Shift(a) == Shift(b)
    ensures a == b
  {
  }

  lemma {:induction false} ShiftsInjective(a: bv32, b: bv32, k: nat)
    requires Shifts(a, k) == Shifts(b, k)
    ensures a == b
  {
    hide Shift;
    if k > 0 {
      ShiftInjective(Shifts(a, k - 1), Shifts(b, k - 1));
      ShiftsInjective(a, b, k - 1);
    }
  }

  // ---------------------------------------------------------------- the table

  function Low(c: bv32): bv32 {
    c & 0xFF
  }

  function High(c: bv32): bv32 {
    c & 0xFFFFFF00
  }

  function Drop(c: bv32): bv32 {
    c >> 8
  }

  lemma Parts(c: bv32)
    ensures Xor(Low(c), High(c)) == c && Low(High(c)) == 0 && Drop(High(c)) == Drop(c)
  {
  }

  function Tower(c: bv32): bv32 {
    Shift(Shift(Shift(Shift(Shift(Shift(Shift(Shift(c))))))))
  }

  lemma TowerClear(c: bv32)
    requires Low(c) == 0
    ensures Tower(c) == Drop(c)
  {
  }

  lemma EightShifts(c: bv32)
    ensures Shifts(c, 8) == Tower(c)
  {
    hide Shift;
    assert Shifts(c, 1) == Shift(c);
    assert Shifts(c, 2) == Shift(Shifts(c, 1));
    assert Shifts(c, 3) == Shift(Shifts(c, 2));
    assert Shifts(c, 4) == Shift(Shifts(c, 3));
    assert Shifts(c, 5) == Shift(Shifts(c, 4));
    assert Shifts(c, 6) == Shift(Shifts(c, 5));
    assert Shifts(c, 7) == Shift(Shifts(c, 6));
  }

  /** With the low byte clear, eight steps are a plain shift. */
  lemma HighBytesOnly(c: bv32)
    requires Low(c) == 0
    ensures Shifts(c, 8) == Drop(c)
  {
    hide Tower, Shift, Shifts, Low, Drop;
    EightShifts(c);
    TowerClear(c);
  }

  /** Eight steps split into a table lookup on the low byte and a shift of the rest. */
  lemma TableStep(c: bv32)
    ensures Shifts(c, 8) == Xor(Shifts(Low(c), 8), Drop(c))
  {
    hide *;
    Parts(c);
    ShiftsLinear(Low(c), High(c), 8);
    HighBytesOnly(High(c));
  }

  lemma ByteAboveLow(c: bv32, b: u8)
    ensures Drop(Mix(c, b)) == Drop(c)
  {
  }

  /** The entry of each byte value is what eight steps make of it. */
  ghost predicate IsTable(t: seq<bv32>) {
    |t| == 256 && forall i :: 0 <= i < 256 ==> t[i] == Shifts((i as bv8) as bv32, 8)
  }

  method MakeTable() returns (t: array<bv32>)
    ensures IsTable(t[..])
  {
    t := new bv32[256];
    for i := 0 to 256
      invariant forall j :: 0 <= j < i ==> t[j] == Shifts((j as bv8) as bv32, 8)
    {
      var c := (i as bv8) as bv32;
      for k := 0 to 8
        invariant c == Shifts((i as bv8) as bv32, k)
      {
        c := if c & 1 == 1 then POLY ^ (c >> 1) else c >> 1;
      }
      t[i] := c;
    }
  }

  function LowByte(c: bv32): (b: bv8)
    ensures b as bv32 == Low(c)
  {
    (c & 0xFF) as bv8
  }

  lemma ByteIndex(b: bv8)
    ensures b as nat < 256 && (b as nat) as bv8 == b
  {
  }

  /** The table index of one step. */
  function Index(crc: bv32, b: u8): (k: nat)
    ensures k < 256
  {
    ByteIndex(LowByte(Mix(crc, b)));
    LowByte(Mix(crc, b)) as nat
  }

  /** One byte of the table-driven loop does what feeding it bit by bit does. */
  lemma LookupFeeds(t: seq<bv32>, crc: bv32, b: u8)
    requires IsTable(t)
    ensures |t| == 256 && Xor(t[Index(crc, b)], Drop(crc)) == Feed(crc, b)
  {
    hide Shifts, Xor, Low, Drop, LowByte, Mix;
    var x := Mix(crc, b);
    TableStep(x);
    ByteAboveLow(crc, b);
    ByteIndex(LowByte(x));
  }

  lemma RegisterStep(c: bv32, data: seq<u8>, i: nat)
    requires i < |data|
    ensures Register(c, data[..i + 1]) == Feed(Register(c, data[..i]), data[i])
  {
    hide Feed;
    assert data[..i + 1][..i] == data[..i];
  }

  lemma WholeRegister(data: seq<u8>)
    ensures Register(ONES, data[..0]) == ONES && Digest(data) == !Register(ONES, data[..|data|])
  {
    assert data[..|data|] == data;
  }

  /** The table-driven digest. */
  method Compute(t: seq<bv32>, data: seq<u8>) returns (crc: bv32)
    requires IsTable(t)
    ensures crc == Digest(data)
  {
    hide *;
    WholeRegister(data);
    crc := ONES;
    for i := 0 to |data|
      invariant crc == Register(ONES, data[..i])
    {
      RegisterStep(ONES, data, i);
      LookupFeeds(t, crc, data[i]);
      crc := Xor(t[Index(crc, data[i])], Drop(crc));
    }
    crc := !crc;
  }

  // ---------------------------------------------------------------- one changed byte is always noticed

  lemma MixDistinct(c: bv32, c': bv32, b: u8, b': u8)
    ensures Mix(c, b) == Mix(c, b') ==> b == b'
    ensures Mix(c, b) == Mix(c', b) ==> c == c'
  {
  }

  lemma FeedDistinct(c: bv32, c': bv32, b: u8, b': u8)
    requires (c == c' && b != b') || (c != c' && b == b')
    ensures Feed(c, b) != Feed(c', b')
  {
    hide Shifts, Mix;
    MixDistinct(c, c', b, b');
    if Feed(c, b) == Feed(c', b') { ShiftsInjective(Mix(c, b), Mix(c', b'), 8); }
  }

  lemma {:induction false} OneByteChanged(c: bv32, a: seq<u8>, b: seq<u8>, i: nat)
    requires |a| == |b| && i < |a| && a[i] != b[i]
    requires forall k :: 0 <= k < |a| && k != i ==> a[k] == b[k]
    ensures Register(c, a) != Register(c, b)
  {
    hide Feed;
    var n := |a| - 1;
    if i == n {
      assert a[..n] == b[..n];
    } else {
      OneByteChanged(c, a[..n], b[..n], i);
    }
    FeedDistinct(Register(c, a[..n]), Register(c, b[..n]), a[n], b[n]);
  }

  /** Two byte strings that differ in exactly one byte never share a digest. */
  lemma DigestNotices(a: seq<u8>, b: seq<u8>, i: nat)
    requires |a| == |b| && i < |a| && a[i] != b[i]
    requires forall k :: 0 <= k < |a| && k != i ==> a[k] == b[k]
    ensures Digest(a) != Digest(b)
  {
    OneByteChanged(ONES, a, b, i);
    Complement(Register(ONES, a), Register(ONES, b));
  }

  lemma Complement(x: bv32, y: bv32)
    ensures !x == !y ==> x == y
  {
  }

  // ---------------------------------------------------------------- which code it is

  lemma FeedTower(c: bv32, b: u8)
    ensures Feed(c, b) == Tower(Mix(c, b))
  {
    hide Shift;
    EightShifts(Mix(c, b));
  }

  lemma RegisterNext(c: bv32, data: seq<u8>, b: u8)
    ensures Register(c, data + [b]) == Tower(Mix(Register(c, data), b))
  {
    hide Feed, Tower, Mix;
    assert (data + [b])[..|data|] == data;
    FeedTower(Register(c, data), b);
  }

  const DIGITS: seq<u8> := [0x31, 0x32, 0x33, 0x34, 0x35, 0x36, 0x37, 0x38, 0x39]

  /** One more digit, from a known register. */
  lemma Digit(k: nat, c: bv32, c': bv32)
    requires k < 9 && Register(ONES, DIGITS[..k]) == c && Tower(Mix(c, DIGITS[k])) == c'
    ensures Register(ONES, DIGITS[..k + 1]) == c'
  {
    hide Tower, Mix, Register;
    RegisterNext(ONES, DIGITS[..k], DIGITS[k]);
    assert DIGITS[..k] + [DIGITS[k]] == DIGITS[..k + 1];
  }

  /** The code's check value, the digest of the digits one to nine. */
  lemma CheckValue()
    ensures Digest(DIGITS) == 0xE3069283
  {
    hide Register;
    WholeRegister(DIGITS);
    Digit(0, 0xFFFFFFFF, 0x6F0A661C);
    Digit(1, 0x6F0A661C, 0x8CAA3B9F);
    Digit(2, 0x8CAA3B9F, 0xEF84D04D);
    Digit(3, 0xEF84D04D, 0x09C50B11);
    Digit(4, 0x09C50B11, 0xE72EDCCA);
    Digit(5, 0xE72EDCCA, 0xBECA8E79);
    Digit(6, 0xBECA8E79, 0xEDBD6815);
    Digit(7, 0xEDBD6815, 0x9F787F65);
    Digit(8, 0x9F787F65, 0x1CF96D7C);
  }

  /** The polynomial is the Castagnoli polynomial 0x1EDC6F41 with its bits reversed. */
  lemma Castagnoli(i: bv32)
    requires i < 32
    ensures (POLY >> i) & 1 == (0x1EDC6F41 >> (31 - i)) & 1
  {
  }
}
