/** Octets as numbers and as bits: the machine operations on `byte` used by the codecs. */
module Octets {

  type Byte = x: int | 0 <= x < 256

  type Bytes = seq<Byte>

  /** A 16-bit value. */
  type Word = x: int | 0 <= x < 65536

  /** `binary.BigEndian.Uint16` of two octets. */
  function Uint16(hi: Byte, lo: Byte): Word {
    256 * (hi as int) + lo as int
  }

  /** Bit `j` of `x`, counted from the least significant one. */
  predicate Bit(x: nat, j: nat)
    decreases j
  {
    if j == 0 then x % 2 == 1 else Bit(x / 2, j - 1)
  }

  /** The number whose bits are `bs`, least significant first. */
  function FromBits(bs: seq<bool>): nat {
    if bs == [] then 0 else (if bs[0] then 1 else 0) + 2 * FromBits(bs[1..])
  }

  function Pow2(n: nat): nat {
    if n == 0 then 1 else 2 * Pow2(n - 1)
  }

  lemma {:induction false} FromBitsBound(bs: seq<bool>)
    ensures FromBits(bs) < Pow2(|bs|)
  {
    if bs != [] {
      FromBitsBound(bs[1..]);
    }
  }

  lemma {:induction false} FromBitsAt(bs: seq<bool>, j: nat)
    ensures Bit(FromBits(bs), j) == (j < |bs| && bs[j])
  {
    if bs == [] {
      BitOfZero(j);
    } else if j > 0 {
      FromBitsAt(bs[1..], j - 1);
      assert FromBits(bs) / 2 == FromBits(bs[1..]);
    }
  }

  lemma {:induction false} BitOfZero(j: nat)
    ensures !Bit(0, j)
  {
    if j > 0 {
      BitOfZero(j - 1);
    }
  }

  /** Numbers below 2^n that agree on their low n bits are equal. */
  lemma {:induction false} BitsDetermine(x: nat, y: nat, n: nat)
    requires x < Pow2(n) && y < Pow2(n)
    requires forall j: nat :: j < n ==> Bit(x, j) == Bit(y, j)
    ensures x == y
  {
    if n > 0 {
      forall j: nat | j < n - 1 ensures Bit(x / 2, j) == Bit(y / 2, j) {
        assert Bit(x, j + 1) == Bit(y, j + 1);
      }
      BitsDetermine(x / 2, y / 2, n - 1);
      assert Bit(x, 0) == Bit(y, 0);
    }
  }

  /** The octet whose bit `j` is `f(j)`. */
  function OctetOf(f: nat -> bool): (r: Byte) {
    var bs := seq(8, j requires 0 <= j < 8 => f(j));
    FromBitsBound(bs);
    assert Pow2(8) == 256 by {
      assert Pow2(4) == 16;
    }
    FromBits(bs)
  }

  lemma OctetOfAt(f: nat -> bool, j: nat)
    ensures Bit(OctetOf(f), j) == (j < 8 && f(j))
  {
    FromBitsAt(seq(8, i requires 0 <= i < 8 => f(i)), j);
  }

  lemma OctetsEqual(x: Byte, y: Byte)
    requires forall j: nat :: j < 8 ==> Bit(x, j) == Bit(y, j)
    ensures x == y
  {
    assert Pow2(8) == 256 by {
      assert Pow2(4) == 16;
    }
    BitsDetermine(x, y, 8);
  }

  /** `x | y`. */
  function Or(x: Byte, y: Byte): Byte {
    OctetOf((j: nat) => Bit(x, j) || Bit(y, j))
  }

  /** `x << p` on a byte: bits shifted past the top are lost. */
  function Shl(x: Byte, p: nat): Byte {
    OctetOf((j: nat) => j >= p && Bit(x, j - p))
  }

  /** `x >> p` on a byte. */
  function Shr(x: Byte, p: nat): Byte {
    OctetOf((j: nat) => j + p < 8 && Bit(x, j + p))
  }

  /** `x & 0x7F`. */
  function Low7(x: Byte): Byte {
    OctetOf((j: nat) => j < 7 && Bit(x, j))
  }

  lemma OrAt(x: Byte, y: Byte, j: nat)
    requires j < 8
    ensures Bit(Or(x, y), j) == (Bit(x, j) || Bit(y, j))
  {
    OctetOfAt((i: nat) => Bit(x, i) || Bit(y, i), j);
  }

  lemma ShlAt(x: Byte, p: nat, j: nat)
    requires j < 8
    ensures Bit(Shl(x, p), j) == (j >= p && Bit(x, j - p))
  {
    OctetOfAt((i: nat) => i >= p && Bit(x, i - p), j);
  }

  lemma ShrAt(x: Byte, p: nat, j: nat)
    requires j < 8
    ensures Bit(Shr(x, p), j) == (j + p < 8 && Bit(x, j + p))
  {
    OctetOfAt((i: nat) => i + p < 8 && Bit(x, i + p), j);
  }

  lemma Low7At(x: Byte, j: nat)
    requires j < 8
    ensures Bit(Low7(x), j) == (j < 7 && Bit(x, j))
  {
    OctetOfAt((i: nat) => i < 7 && Bit(x, i), j);
  }
}
