/**
 * The bit arrays of the utility layer: a bit array of N bits is kept in
 * N / 8 bytes, bit b in byte b >> 3 at position b & 7.
 */
module BitArray {

  /** The byte mask 1 << k. */
  function Mask(k: nat): (m: bv8)
    requires k < 8
  {
    (1 as bv8) << k
  }

  /** Bit j of byte x, as 0 or 1. */
  function ByteBit(x: bv8, j: nat): (b: int)
    requires j < 8
    ensures b == 0 || b == 1
  {
    ((x >> j) & 1) as int
  }

  /** get_bit: bit `bit` of the byte array. */
  function GetBit(s: seq<bv8>, bit: nat): (b: int)
    requires bit / 8 < |s|
  {
    ByteBit(s[bit / 8], bit % 8)
  }

  /** A byte with bit k set, as set_bit computes it. */
  function SetByte(x: bv8, k: nat): bv8
    requires k < 8
  {
    Mask(k) | x
  }

  /** A byte with bit k cleared, as clr_bit computes it. */
  function ClrByte(x: bv8, k: nat): bv8
    requires k < 8
  {
    (Mask(k) ^ 0xff) & x
  }

  /** The array after set_bit. */
  function SetBitOf(s: seq<bv8>, bit: nat): (r: seq<bv8>)
    requires bit / 8 < |s|
  {
    s[bit / 8 := SetByte(s[bit / 8], bit % 8)]
  }

  /** The array after clr_bit. */
  function ClrBitOf(s: seq<bv8>, bit: nat): (r: seq<bv8>)
    requires bit / 8 < |s|
  {
    s[bit / 8 := ClrByte(s[bit / 8], bit % 8)]
  }

  /** The array after put_bit: a zero value clears the bit, any other sets it. */
  function PutBitOf(val: int, s: seq<bv8>, bit: nat): (r: seq<bv8>)
    requires bit / 8 < |s|
  {
    if val == 0 then ClrBitOf(s, bit) else SetBitOf(s, bit)
  }

  /** The mask of bit k, or-ed in or inverted and and-ed in, decides bit k and no other. */
  lemma MaskBits(x: bv8, y: bv8, k: nat, j: nat)
    requires k < 8 && j < 8
    ensures ((Mask(k) | x) >> j) & 1 == if j == k then 1 else (x >> j) & 1
    ensures (((Mask(k) ^ 0xff) & y) >> j) & 1 == if j == k then 0 else (y >> j) & 1
  {
    MaskBitsBv(x, y, k as bv8, j as bv8);
  }

  /** MaskBits with the bit positions as bytes. */
  lemma MaskBitsBv(x: bv8, y: bv8, k: bv8, j: bv8)
    requires k < 8 && j < 8
    ensures ((((1 as bv8) << k) | x) >> j) & 1 == if j == k then 1 else (x >> j) & 1
    ensures (((((1 as bv8) << k) ^ 0xff) & y) >> j) & 1 == if j == k then 0 else (y >> j) & 1
  {
  }

  /** Within one byte, or-ing in the mask of bit k sets bit k and leaves every other bit. */
  lemma OrMaskBits(x: bv8, k: nat, j: nat)
    requires k < 8 && j < 8
    ensures ByteBit(SetByte(x, k), j) == if j == k then 1 else ByteBit(x, j)
  {
    MaskBits(x, x, k, j);
  }

  /** Within one byte, and-ing with the inverted mask of bit k clears bit k and leaves every other bit. */
  lemma AndNotMaskBits(x: bv8, k: nat, j: nat)
    requires k < 8 && j < 8
    ensures ByteBit(ClrByte(x, k), j) == if j == k then 0 else ByteBit(x, j)
  {
    MaskBits(x, x, k, j);
  }

  /** Two bit indices in the same byte differ exactly in their position within it. */
  lemma SameByte(bit: nat, other: nat)
    requires bit / 8 == other / 8 && other != bit
    ensures other % 8 != bit % 8
  {
  }

  /** The byte holding a bit is the only one set_bit or clr_bit changes. */
  lemma OtherByte(s: seq<bv8>, bit: nat, other: nat, y: bv8)
    requires bit / 8 < |s| && other / 8 < |s| && other / 8 != bit / 8
    ensures GetBit(s[bit / 8 := y], other) == GetBit(s, other)
  {
    assert s[bit / 8 := y][other / 8] == s[other / 8];
  }

  /** After set_bit the bit reads 1; every other bit reads as before. */
  lemma SetBitGet(s: seq<bv8>, bit: nat, other: nat)
    requires bit / 8 < |s| && other / 8 < |s|
    ensures |SetBitOf(s, bit)| == |s|
    ensures GetBit(SetBitOf(s, bit), bit) == 1
    ensures other != bit ==> GetBit(SetBitOf(s, bit), other) == GetBit(s, other)
  {
    var y := SetByte(s[bit / 8], bit % 8);
    assert SetBitOf(s, bit) == s[bit / 8 := y];
    OrMaskBits(s[bit / 8], bit % 8, bit % 8);
    if other / 8 != bit / 8 {
      OtherByte(s, bit, other, y);
    } else if other != bit {
      SameByte(bit, other);
      OrMaskBits(s[bit / 8], bit % 8, other % 8);
    }
  }

  /** After clr_bit the bit reads 0; every other bit reads as before. */
  lemma ClrBitGet(s: seq<bv8>, bit: nat, other: nat)
    requires bit / 8 < |s| && other / 8 < |s|
    ensures |ClrBitOf(s, bit)| == |s|
    ensures GetBit(ClrBitOf(s, bit), bit) == 0
    ensures other != bit ==> GetBit(ClrBitOf(s, bit), other) == GetBit(s, other)
  {
    var y := ClrByte(s[bit / 8], bit % 8);
    assert ClrBitOf(s, bit) == s[bit / 8 := y];
    AndNotMaskBits(s[bit / 8], bit % 8, bit % 8);
    if other / 8 != bit / 8 {
      OtherByte(s, bit, other, y);
    } else if other != bit {
      SameByte(bit, other);
      AndNotMaskBits(s[bit / 8], bit % 8, other % 8);
    }
  }

  /** After put_bit(val) the bit reads 1 exactly when val is nonzero; every other bit reads as before. */
  lemma PutBitGet(val: int, s: seq<bv8>, bit: nat, other: nat)
    requires bit / 8 < |s| && other / 8 < |s|
    ensures |PutBitOf(val, s, bit)| == |s|
    ensures GetBit(PutBitOf(val, s, bit), bit) == if val != 0 then 1 else 0
    ensures other != bit ==> GetBit(PutBitOf(val, s, bit), other) == GetBit(s, other)
  {
    if val == 0 {
      ClrBitGet(s, bit, other);
    } else {
      SetBitGet(s, bit, other);
    }
  }

  /** clr_bit on a byte array in place. */
  method ClrBit(aray: array<bv8>, bit: nat)
    requires bit / 8 < aray.Length
    modifies aray
    ensures aray[..] == ClrBitOf(old(aray[..]), bit)
  {
    var byte := bit / 8;
    aray[byte] := ClrByte(aray[byte], bit % 8);
  }

  /** set_bit on a byte array in place. */
  method SetBit(aray: array<bv8>, bit: nat)
    requires bit / 8 < aray.Length
    modifies aray
    ensures aray[..] == SetBitOf(old(aray[..]), bit)
  {
    var byte := bit / 8;
    aray[byte] := SetByte(aray[byte], bit % 8);
  }

  /** put_bit on a byte array in place. */
  method PutBit(val: int, aray: array<bv8>, bit: nat)
    requires bit / 8 < aray.Length
    modifies aray
    ensures aray[..] == PutBitOf(val, old(aray[..]), bit)
  {
    var byte := bit / 8;
    if val == 0 {
      aray[byte] := ClrByte(aray[byte], bit % 8);
    } else {
      aray[byte] := SetByte(aray[byte], bit % 8);
    }
  }
}
