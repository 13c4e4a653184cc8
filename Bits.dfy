/** Bytes, and single bits of a byte: the vocabulary in which masks,
    fields and read-modify-write results are stated. */
module Bits {

  /** An unsigned 8-bit value as it is stored and carried on the bus. Bit
      operations work on its `bv8` view. */
  newtype byte = x: int | 0 <= x < 256

  /** The bit view of a byte. */
  function ToBv(b: byte): bv8
  {
    b as bv8
  }

  /** The byte with the given bits; its bit view is those bits. */
  function FromBv(v: bv8): (b: byte)
    ensures ToBv(b) == v
  {
    v as byte
  }

  /** Going to the bit view and back gives the byte itself. */
  lemma FromToBv(b: byte)
    ensures FromBv(ToBv(b)) == b
  {
    IntBvRoundTrip(b as int);
  }

  lemma IntBvRoundTrip(x: int)
    requires 0 <= x < 256
    ensures (x as bv8) as int == x
  {
    assert x % 256 == x;
  }

  /** The byte with only bit `i` set (bit 0 is the least significant). */
  function BitValue(i: nat): (r: bv8)
    requires i < 8
    ensures r == 1 << i
  {
    match i
    case 0 => 0x01
    case 1 => 0x02
    case 2 => 0x04
    case 3 => 0x08
    case 4 => 0x10
    case 5 => 0x20
    case 6 => 0x40
    case 7 => 0x80
  }

  /** Bit `i` of `b` is set. */
  predicate Bit(b: bv8, i: nat)
    requires i < 8
  {
    b & BitValue(i) != 0
  }

  /** A byte is determined by its eight bits. */
  lemma BitsDetermine(a: bv8, b: bv8)
    requires forall i: nat | i < 8 :: Bit(a, i) == Bit(b, i)
    ensures a == b
  {
    assert Bit(a, 0) == Bit(b, 0) && Bit(a, 1) == Bit(b, 1);
    assert Bit(a, 2) == Bit(b, 2) && Bit(a, 3) == Bit(b, 3);
    assert Bit(a, 4) == Bit(b, 4) && Bit(a, 5) == Bit(b, 5);
    assert Bit(a, 6) == Bit(b, 6) && Bit(a, 7) == Bit(b, 7);
  }

  /** `s` is the index of the lowest set bit of `m`. */
  predicate IsLowestSetBit(m: bv8, s: nat)
  {
    s < 8 && Bit(m, s) && forall i: nat | i < s :: !Bit(m, i)
  }
}
