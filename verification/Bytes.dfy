/** Bytes and what setting a bit does to their value. */
module Bytes {

  type Byte = x: int | 0 <= x < 256

  /** The weight of a bit of a byte. */
  function Weight(bit: nat): (w: nat)
    requires bit < 8
    ensures 1 <= w <= 128
  {
    if bit == 0 then 1 else if bit == 1 then 2 else if bit == 2 then 4 else if bit == 3 then 8
    else if bit == 4 then 16 else if bit == 5 then 32 else if bit == 6 then 64 else 128
  }

  /** The byte with one bit set: its weight is added unless the bit was set. */
  function SetBit(b: Byte, bit: nat): Byte
    requires bit < 8
  {
    if (b / Weight(bit)) % 2 == 1 then b
    else
      BitRoom(b, bit);
      b + Weight(bit)
  }

  lemma BitRoom(b: Byte, bit: nat)
    requires bit < 8 && (b / Weight(bit)) % 2 == 0
    ensures b + Weight(bit) < 256
  {
  }

  // On bit vectors that is the bitwise or with a shifted one, bit by bit.

  lemma OrBit0(b: bv8)
    ensures (b | 1) as int == SetBit(b as int, 0)
  {
  }

  lemma OrBit1(b: bv8)
    ensures (b | 2) as int == SetBit(b as int, 1)
  {
  }

  lemma OrBit2(b: bv8)
    ensures (b | 4) as int == SetBit(b as int, 2)
  {
  }

  lemma OrBit3(b: bv8)
    ensures (b | 8) as int == SetBit(b as int, 3)
  {
  }

  lemma OrBit4(b: bv8)
    ensures (b | 16) as int == SetBit(b as int, 4)
  {
  }

  lemma OrBit5(b: bv8)
    ensures (b | 32) as int == SetBit(b as int, 5)
  {
  }

  lemma OrBit6(b: bv8)
    ensures (b | 64) as int == SetBit(b as int, 6)
  {
  }

  lemma OrBit7(b: bv8)
    ensures (b | 128) as int == SetBit(b as int, 7)
  {
  }

  /** Setting a bit is what `|= 1 << bit` does to a byte. */
  lemma OrIsSetBit(b: bv8, bit: nat)
    requires bit < 8
    ensures (b | (1 as bv8 << bit)) as int == SetBit(b as int, bit)
  {
    if bit == 0 { OrBit0(b); } else if bit == 1 { OrBit1(b); } else if bit == 2 { OrBit2(b); }
    else if bit == 3 { OrBit3(b); } else if bit == 4 { OrBit4(b); } else if bit == 5 { OrBit5(b); }
    else if bit == 6 { OrBit6(b); } else { OrBit7(b); }
  }

  /** The number of a four-byte address, most significant byte first. */
  function FromBytes(b: seq<Byte>): nat
    requires |b| == 4
  {
    ((b[0] as int * 256 + b[1] as int) * 256 + b[2] as int) * 256 + b[3] as int
  }

  function ToBytes(n: nat): (b: seq<Byte>)
    requires n < 4294967296
    ensures |b| == 4 && FromBytes(b) == n
  {
    [n / 256 / 256 / 256, n / 256 / 256 % 256, n / 256 % 256, n % 256]
  }
}
