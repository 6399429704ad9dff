/** Numbers that fit a byte. */
module Bytes {
  lemma SmallByte(k: nat)
    requires k < 256
    ensures (k as bv8) as nat == k
  {
  }
}
