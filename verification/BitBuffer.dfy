/** QRBitBuffer: bits packed into bytes, most significant bit first. */
module BitBuffer {
  import opened Numbers

  // ----- single bits of a byte -----

  /** Bit j of a byte, counted from the most significant one. */
  function Bit(b: bv8, j: nat): bool
    requires j < 8
  {
    (b >> (7 - j)) & 1 == 1
  }

  /** The bits of a byte spell its value, the first one counting 128. */
  lemma ByteSpelled(b: bv8)
    ensures b as int == (if Bit(b, 0) then 128 else 0) + (if Bit(b, 1) then 64 else 0)
                        + (if Bit(b, 2) then 32 else 0) + (if Bit(b, 3) then 16 else 0)
                        + (if Bit(b, 4) then 8 else 0) + (if Bit(b, 5) then 4 else 0)
                        + (if Bit(b, 6) then 2 else 0) + (if Bit(b, 7) then 1 else 0)
  {}

  function Mask(j: nat): bv8
    requires j < 8
  {
    if j == 0 then 0x80 else if j == 1 then 0x40 else if j == 2 then 0x20 else if j == 3 then 0x10
    else if j == 4 then 0x08 else if j == 5 then 0x04 else if j == 6 then 0x02 else 0x01
  }

  lemma BitByMask(b: bv8, j: nat)
    requires j < 8
    ensures Bit(b, j) == (b & Mask(j) != 0)
    ensures 0x80 >> j == Mask(j)
  {
    if j == 0 {} else if j == 1 {} else if j == 2 {} else if j == 3 {}
    else if j == 4 {} else if j == 5 {} else if j == 6 {} else {}
  }

  lemma MasksDiffer(j: nat, k: nat)
    requires j < 8 && k < 8
    ensures Mask(k) & Mask(j) == if j == k then Mask(j) else 0
    ensures Mask(j) != 0
  {}

  lemma OrMask(b: bv8, m: bv8, n: bv8)
    ensures m & n == 0 ==> (b | m) & n == b & n
    ensures m == n && n != 0 ==> (b | m) & n != 0
  {}

  /** Setting bit k changes bit k and nothing else. */
  lemma SetBit(b: bv8, k: nat, j: nat)
    requires j < 8 && k < 8
    ensures Bit(b | (0x80 >> k), j) == (Bit(b, j) || j == k)
  {
    BitByMask(b, j);
    BitByMask(b, k);
    BitByMask(b | Mask(k), j);
    hide Bit, Mask;
    MasksDiffer(j, k);
    OrMask(b, Mask(k), Mask(j));
  }

  lemma ZeroBit(j: nat)
    requires j < 8
    ensures !Bit(0, j)
  {
    BitByMask(0, j);
  }

  // ----- bit sequences -----

  type BitSeq = seq<bool>

  function BitsOf(bytes: seq<bv8>): (bits: BitSeq)
    ensures |bits| == 8 * |bytes|
    ensures forall i | 0 <= i < |bits| :: bits[i] == Bit(bytes[i / 8], i % 8)
  {
    seq(8 * |bytes|, i requires 0 <= i < 8 * |bytes| => Bit(bytes[i / 8], i % 8))
  }

  function Falses(n: nat): (bits: BitSeq)
    ensures |bits| == n && forall i | 0 <= i < n :: !bits[i]
  {
    seq(n, _ => false)
  }

  /** Bit k of a number, as the shift of the program reads it: JavaScript
      reduces the shift amount modulo 32. */
  function NumBit(num: nat, k: nat): bool {
    BitAt(num, k % 32)
  }

  /** The low `length` bits of num, most significant first. */
  function NumBits(num: nat, length: nat): (bits: BitSeq)
    ensures |bits| == length
    ensures forall i | 0 <= i < length :: bits[i] == NumBit(num, length - i - 1)
  {
    seq(length, i requires 0 <= i < length => NumBit(num, length - i - 1))
  }

  /** The number written by a bit sequence. */
  function FromBits(bits: BitSeq): nat {
    if bits == [] then 0
    else 2 * FromBits(bits[..|bits| - 1]) + (if bits[|bits| - 1] then 1 else 0)
  }

  lemma HalfBit(num: nat, k: nat)
    requires k + 1 < 32
    ensures NumBit(num, k + 1) == NumBit(num / 2, k)
  {
    NextBit(num, k);
  }

  /** Reading back what put has written. */
  lemma {:induction false} FromNumBits(num: nat, length: nat)
    requires length <= 32
    ensures FromBits(NumBits(num, length)) == num % Pow2(length)
  {
    if length > 0 {
      var bits := NumBits(num, length);
      var front := bits[..length - 1];
      forall i | 0 <= i < length - 1 ensures front[i] == NumBits(num / 2, length - 1)[i] {
        HalfBit(num, length - 2 - i);
      }
      assert front == NumBits(num / 2, length - 1);
      FromNumBits(num / 2, length - 1);
      assert bits[length - 1] == (num % 2 == 1) by { assert Pow2(0) == 1; }
      HalfRemainder(num, Pow2(length - 1));
    }
  }

  lemma HalfRemainder(n: nat, m: nat)
    requires m > 0
    ensures n % (2 * m) == 2 * (n / 2 % m) + n % 2
  {
    DivideTwice(n, m);
    var q := n / 2 / m;
    assert n / 2 == m * q + n / 2 % m;
    assert n == 2 * m * q + n % (2 * m);
    assert 2 * m * q == 2 * (m * q);
  }

  ghost predicate ZeroFrom(bytes: seq<bv8>, at: nat) {
    forall i | at <= i < 8 * |bytes| :: !BitsOf(bytes)[i]
  }

  /** The buffer of the encoder. */
  class QRBitBuffer {
    var buffer: seq<bv8>
    var length: nat

    ghost predicate Valid()
      reads this
    {
      |buffer| == (length + 7) / 8 && ZeroFrom(buffer, length)
    }

    ghost function Bits(): (bits: BitSeq)
      requires Valid()
      reads this
    {
      BitsOf(buffer)[..length]
    }

    constructor ()
      ensures Valid() && Bits() == [] && length == 0
    {
      buffer := [];
      length := 0;
    }

    method GetLengthInBits() returns (n: nat)
      requires Valid()
      ensures n == |Bits()|
    {
      n := length;
    }

    /** Any index may be asked for; beyond the end JavaScript reads undefined,
        whose shifted value is 0. */
    method Get(index: nat) returns (bit: bool)
      requires Valid()
      ensures bit == (index < |Bits()| && Bits()[index])
    {
      var bufIndex := index / 8;
      if bufIndex < |buffer| {
        assert BitsOf(buffer)[index] == Bit(buffer[bufIndex], index % 8);
        bit := Bit(buffer[bufIndex], index % 8);
      } else {
        bit := false;
      }
    }

    method PutBit(bit: bool)
      requires Valid()
      modifies this
      ensures Valid() && Bits() == old(Bits()) + [bit]
      ensures length == old(length) + 1
    {
      hide BitsOf, Bit, ZeroFrom;
      var bufIndex := length / 8;
      if |buffer| <= bufIndex {
        GrowBits(buffer, length);
        buffer := buffer + [0];
      }
      if bit {
        WriteBit(buffer, length);
        buffer := buffer[bufIndex := buffer[bufIndex] | (0x80 >> (length % 8))];
      } else {
        KeepBit(buffer, length);
      }
      length := length + 1;
    }

    method Put(num: nat, len: nat)
      requires Valid()
      modifies this
      ensures Valid() && Bits() == old(Bits()) + NumBits(num, len)
      ensures length == old(length) + len
    {
      hide BitsOf;
      for i := 0 to len
        invariant Valid() && length == old(length) + i
        invariant Bits() == old(Bits()) + NumBits(num, len)[..i]
      {
        assert NumBits(num, len)[..i + 1] == NumBits(num, len)[..i] + [NumBit(num, len - i - 1)];
        PutBit(NumBit(num, len - i - 1));
      }
    }
  }

  /** A fresh zero byte adds no bit. */
  lemma GrowBits(bytes: seq<bv8>, at: nat)
    requires at == 8 * |bytes|
    ensures ZeroFrom(bytes + [0], at) && BitsOf(bytes + [0])[..at] == BitsOf(bytes)[..at]
  {
    hide Bit;
    var bits := BitsOf(bytes + [0]);
    forall i | at <= i < |bits| ensures !bits[i] {
      assert i / 8 == |bytes|;
      ZeroBit(i % 8);
    }
  }

  lemma WriteBit(bytes: seq<bv8>, at: nat)
    requires at < 8 * |bytes| && ZeroFrom(bytes, at)
    ensures var after := bytes[at / 8 := bytes[at / 8] | (0x80 >> (at % 8))];
            ZeroFrom(after, at + 1) && BitsOf(after)[..at + 1] == BitsOf(bytes)[..at] + [true]
  {
    hide Bit;
    var after := bytes[at / 8 := bytes[at / 8] | (0x80 >> (at % 8))];
    forall i | 0 <= i < 8 * |bytes| ensures BitsOf(after)[i] == (BitsOf(bytes)[i] || i == at) {
      if i / 8 == at / 8 { SetBit(bytes[at / 8], at % 8, i % 8); }
    }
  }

  lemma KeepBit(bytes: seq<bv8>, at: nat)
    requires at < 8 * |bytes| && ZeroFrom(bytes, at)
    ensures ZeroFrom(bytes, at + 1) && BitsOf(bytes)[..at + 1] == BitsOf(bytes)[..at] + [false]
  {}

  // ----- bytes are determined by their bits -----

  lemma ByteFromMasks(a: bv8)
    ensures a == (a & 0x80) | (a & 0x40) | (a & 0x20) | (a & 0x10) | (a & 0x08) | (a & 0x04) | (a & 0x02) | (a & 0x01)
  {}

  lemma MaskedBit(a: bv8, j: nat)
    requires j < 8
    ensures a & Mask(j) == if Bit(a, j) then Mask(j) else 0
  {
    BitByMask(a, j);
    hide Bit;
    if j == 0 {} else if j == 1 {} else if j == 2 {} else if j == 3 {}
    else if j == 4 {} else if j == 5 {} else if j == 6 {} else {}
  }

  lemma SameBitsSameByte(a: bv8, b: bv8)
    requires forall j | 0 <= j < 8 :: Bit(a, j) == Bit(b, j)
    ensures a == b
  {
    ByteFromMasks(a);
    ByteFromMasks(b);
    forall j | 0 <= j < 8 ensures a & Mask(j) == b & Mask(j) {
      MaskedBit(a, j);
      MaskedBit(b, j);
    }
    hide Bit;
    assert Mask(0) == 0x80 && Mask(1) == 0x40 && Mask(2) == 0x20 && Mask(3) == 0x10;
    assert Mask(4) == 0x08 && Mask(5) == 0x04 && Mask(6) == 0x02 && Mask(7) == 0x01;
  }

  lemma BitsDetermineBytes(a: seq<bv8>, b: seq<bv8>)
    requires BitsOf(a) == BitsOf(b)
    ensures a == b
  {
    hide Bit;
    forall i | 0 <= i < |a| ensures a[i] == b[i] {
      forall j | 0 <= j < 8 ensures Bit(a[i], j) == Bit(b[i], j) {
        assert BitsOf(a)[8 * i + j] == BitsOf(b)[8 * i + j];
        assert (8 * i + j) / 8 == i && (8 * i + j) % 8 == j;
      }
      SameBitsSameByte(a[i], b[i]);
    }
  }
}
